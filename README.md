# SmartJob-Finder core in Dafny

SmartJob-Finder is a job search application in four parts:

- a scraper (`scripts/scraper.py`) collects job adverts from a job board into `data/search_engine.csv`;
- a Flask service (`app/api.py`) answers `/search` and `/job/<id>` over the table in `../scripts/data/job_data.csv`, a file the code does not connect to the scraper's;
- a React search form (`JobSearch`) captures a typed or dictated query and submits it;
- a React list (`JobList`) renders the returned jobs as cards.

This project models the logic of those four parts and proves what they promise.

- `optional.dfy` (`Optional`): the `Option` type.
- `text.dfy` (`Text`): the string operations the code relies on.
  - Python's ASCII `lower()`, `string.punctuation`, `str.split()` over Python whitespace, and `' '.join`.
  - JavaScript's `trim()`.
  - Substring search, standing in for pandas' `str.contains`.
- `query_processing.dfy` (`QueryProcessing`): `preprocess_text`, `expand_synonyms` and `extract_salary_range`.
- `ranking.dfy` (`Ranking`): `argsort()[::-1]`, the positions ordered by descending score.
- `search_endpoint.dfy` (`SearchEndpoint`): the filtering and result assembly of `search`, and `get_job_detail`.
  - The TF-IDF similarity scores are an input.
  - The fuzzy title matcher used for suggestions is an input.
- `job_search.dfy` (`JobSearchForm`): the search form as a class whose fields are the component's state cells.
  - The fields are `query`, `loading`, `error`, `isListening` and the recogniser.
  - Logs record the calls made on the recogniser, the requests sent and the `onResults` calls.
  - Each event handler is a method.
- `job_list.dfy` (`JobList`): card rendering with JavaScript truthiness, fallback texts and description truncation.
- `scraper.dfy` (`Scraper`): the scraper.
  - Each page becomes a status code and its parsed articles.
  - Each article is paired with the outcome of fetching its detail page.
  - The CSV file is a class whose line list `save_to_csv` extends.
  - The dedup dictionary is a map updated in a loop, as in the source.

The front end behaves as follows, and the model with it:

- the form sends the query untrimmed;
- an ok response passes only `data.results` to the list, and `data.suggestions` is not used;
- a body that is not JSON ends in "Gagal menghubungi server", the same message as a transport failure;
- the front end neither pages results nor shows suggestions.

## Model

| member | source | states |
|---|---|---|
| Text.Lower | app/api.py:39 | Lower-casing keeps the length, turns each upper-case ASCII letter into its lower-case letter (code point + 32) and changes no other character |
| Text.LowerOfLower | app/api.py:39 | Lower-casing a string without upper-case letters changes nothing |
| Text.PunctuationRanges | app/api.py:40 | The punctuation test is exactly membership in Python's `string.punctuation` |
| Text.Split | app/api.py:41 | `split()` yields only non-empty tokens free of Python whitespace |
| Text.RunsShape | app/api.py:41 | Every maximal run is non-empty and made of the kept character class |
| Text.RunsChars | app/api.py:41 | Runs of a string whose characters all lie in a class also lie in that class |
| Text.SplitSkipsSpace | app/api.py:41 | Leading whitespace does not change the tokens |
| Text.SplitJoin | app/api.py:43 | Splitting the space-joined tokens gives the tokens back |
| Text.JoinSpacing | app/api.py:43 | A join of tokens is empty iff there are none, and its only whitespace is single spaces between tokens |
| Text.JoinChars | app/api.py:43 | Every non-space character of a join comes from a token |
| Text.TrimStartEmpty | frontend/src/components/JobSearch.js:68 | Trimming the start leaves nothing iff every character is JavaScript whitespace |
| Text.Trim | frontend/src/components/JobSearch.js:68 | `trim()` gives a result no longer than the string that neither starts nor ends with JavaScript whitespace |
| Text.TrimIsSlice | frontend/src/components/JobSearch.js:68 | `trim()` keeps a slice of the string, and everything cut off before and after it is JavaScript whitespace |
| Text.TrimBlank | frontend/src/components/JobSearch.js:68 | `trim()` yields "" iff every character is JavaScript whitespace |
| QueryProcessing.RemovePunctuation | app/api.py:40 | The result has no punctuation and only characters of the input |
| QueryProcessing.RemovePunctuationKeepsClean | app/api.py:40 | A string without punctuation is unchanged |
| QueryProcessing.RemovePunctuationAppend | app/api.py:40 | Removal distributes over concatenation and drops a single character exactly when it is punctuation, so every other character is kept, in order |
| QueryProcessing.RemoveStopWords | app/api.py:42 | Only tokens of the input that are not stop words remain, and with no stop word present the tokens are unchanged |
| QueryProcessing.RemoveStopWordsAppend | app/api.py:42 | The filter distributes over concatenation and drops a single token exactly when it is a stop word, so every other token is kept, in order |
| QueryProcessing.Tokens | app/api.py:39-41 | The tokens of the lower-cased, punctuation-free text (definition); CleanTokens and PreprocessWords state them |
| QueryProcessing.PreprocessText | app/api.py:36-38 | A value that is not a string gives "" |
| QueryProcessing.CleanTokens | app/api.py:39-41 | Every token of the lower-cased, punctuation-free text consists of clean characters |
| QueryProcessing.PreprocessWords | app/api.py:39-43 | The words of the output are the tokens of the lower-cased, punctuation-free input minus stop words, in order |
| QueryProcessing.PreprocessChars | app/api.py:39-43 | Every output character is a lower-case letter, a digit, other non-punctuation non-space, or a space |
| QueryProcessing.PreprocessNoStopWords | app/api.py:42-43 | No word of the output is a stop word |
| QueryProcessing.PreprocessSpacing | app/api.py:43 | The output's only whitespace is single spaces between words |
| QueryProcessing.PreprocessIdempotent | app/api.py:36-43 | Preprocessing a preprocessed text changes nothing |
| QueryProcessing.Synonyms | app/api.py:46-50 | The synonym table: developer, marketing and designer with their three values each, in that order (definition); KeysAreNotValues and SynonymValuesAreTokens state facts about it |
| QueryProcessing.AdditionsStep | app/api.py:55-57 | One table entry adds its values exactly when the word is its key or one of its values |
| QueryProcessing.AdditionsMembers | app/api.py:55-57 | A word's additions are exactly the values of the entries it triggers |
| QueryProcessing.ExpandedMembers | app/api.py:51-57 | The expanded list holds exactly the words and the values of the entries each word triggers |
| QueryProcessing.KeysAreNotValues | app/api.py:46-50 | No key of the synonym table is a value of any entry |
| QueryProcessing.ExpansionProperties | app/api.py:51-57 | Expansion keeps every word, adds all values of triggered entries, adds nothing else, and contains a key iff the input did |
| QueryProcessing.SynonymValuesAreTokens | app/api.py:46-50 | Every synonym is a single token |
| QueryProcessing.ExpandedTokens | app/api.py:51-57 | Expanding tokens yields tokens |
| QueryProcessing.ExpandedStep | app/api.py:53-57 | One word appends itself and its additions to the expanded list |
| QueryProcessing.ExtendWithSynonyms | app/api.py:55-57 | The inner loop over the table appends exactly the word's additions |
| QueryProcessing.ExpandWords | app/api.py:52-57 | The outer loop builds exactly the expanded list |
| QueryProcessing.Enumerate | app/api.py:58 | Listing a set gives each member once and nothing else |
| QueryProcessing.JoinExpansion | app/api.py:58 | Joining a duplicate-free listing of the set gives words that are duplicate-free and exactly the set |
| QueryProcessing.ExpandSynonyms | app/api.py:45-58 | The output's words are duplicate-free and are exactly the expansion of the input's words |
| QueryProcessing.RemoveCommas | app/api.py:65 | The result has no comma and only characters of the input |
| QueryProcessing.RemoveCommasAppend | app/api.py:65 | Removal distributes over concatenation and drops a single character exactly when it is a comma, so every other character is kept, in order |
| QueryProcessing.RemoveCommasKeeps | app/api.py:65-71 | Every character other than a comma survives comma removal, so the '>' and '<' tests see the same answer |
| QueryProcessing.DecimalValue | app/api.py:66 | `int()` of a run of digits: its decimal value (definition, no contract) |
| QueryProcessing.Numbers | app/api.py:66 | One number per maximal run of digits |
| QueryProcessing.Min | app/api.py:74 | The minimum is an element and no element is smaller |
| QueryProcessing.Max | app/api.py:74 | The maximum is an element and no element is larger |
| QueryProcessing.ExtractSalaryRange | app/api.py:64-75 | No number gives no bounds. One number is a minimum with '>', else a maximum with '<', else nothing. Two or more give the smallest and the largest |
| QueryProcessing.CommaGroupedIsOneNumber | app/api.py:65-66 | A comma-grouped amount reads as a single number |
| Ranking.Insert | app/api.py:120 | Insertion adds one position and nothing but the new one and the old ones |
| Ranking.Order | app/api.py:120 | The order of the first n positions has n entries, all below n |
| Ranking.Argsort | app/api.py:120 | One entry per score |
| Ranking.InsertDescending | app/api.py:120 | Inserting into a descending order keeps it descending |
| Ranking.InsertDistinct | app/api.py:120 | Inserting a new position keeps the order free of repeats |
| Ranking.InsertKeeps | app/api.py:120 | Inserting keeps every old position and adds the new one |
| Ranking.OrderMembers | app/api.py:120 | The order holds exactly the positions below n |
| Ranking.OrderDistinct | app/api.py:120 | No position occurs twice |
| Ranking.OrderDescending | app/api.py:120 | Higher scores come first |
| Ranking.ArgsortIsSortedPermutation | app/api.py:120 | `argsort()[::-1]` lists each position once, highest score first |
| Text.Contains | app/api.py:103-105 | Substring search (definition); ContainsAt states its meaning |
| Text.ContainsAt | app/api.py:103-105 | The needle is contained exactly when some slice of the hay equals it |
| Text.Join | app/api.py:43 | `' '.join` (definition); SplitJoin, JoinSpacing and JoinChars state its properties |
| SearchEndpoint.CriteriaOf | app/api.py:88-94 | The filters are the lower-cased location and job type arguments and the bounds `extract_salary_range` reads from the query, so when both bounds are set the minimum is at most the maximum |
| SearchEndpoint.Active | app/api.py:107-112 | A salary bound filters only when it is truthy: present and not 0 (definition) |
| SearchEndpoint.Passes | app/api.py:101-115 | A row passes when the non-empty location and job type occur in its lower-cased cells and every truthy salary bound admits its numeric salary (definition); PassingIsFilter states the filter |
| SearchEndpoint.HitFor | app/api.py:127-140 | A result copies the row's fields with its id, score and rank (definition); TopHitsMatch states what the results hold |
| SearchEndpoint.Passing | app/api.py:101-117 | The filtered index holds only table positions |
| SearchEndpoint.PassingIsFilter | app/api.py:101-117 | A position is in the filtered index iff its row passes the location and job type substring filters and every salary bound that is present and non-zero, in increasing order |
| SearchEndpoint.Titles | app/api.py:143 | The title list is the table's titles in order |
| SearchEndpoint.FilteredScores | app/api.py:118 | The filtered scores are the scores of the filtered rows, in index order |
| SearchEndpoint.TopOfOrder | app/api.py:120 | The first ten of the order are descending, distinct, and score no lower than any later position |
| SearchEndpoint.ScoresOfTop | app/api.py:118-120 | The top positions read through the filtered index have non-increasing scores |
| SearchEndpoint.TopHitsMatch | app/api.py:121-140 | Results built from the top positions are passing rows with positive scores, copied from the table with rank = position + 1 |
| SearchEndpoint.TopHitsDistinct | app/api.py:122-128 | No row appears twice among the results |
| SearchEndpoint.TopHitsByScore | app/api.py:120-127 | Results come in non-increasing score order |
| SearchEndpoint.HitsOfTopSkip | app/api.py:124-125 | A zero score is skipped |
| SearchEndpoint.HitsOfTopTake | app/api.py:126-139 | A positive score becomes the next result, with the position's rank |
| SearchEndpoint.PositionInOrder | app/api.py:117-120 | Every passing row has a place in the order |
| SearchEndpoint.MissingRowIsOutranked | app/api.py:120-125 | A passing positive row that is not a result implies ten results, none scoring lower |
| SearchEndpoint.TopHitsComplete | app/api.py:120-125 | The results miss no passing positive row unless the list is full of rows that score at least as high |
| SearchEndpoint.RankResults | app/api.py:117-140 | At most ten results: each a passing row with positive score copied from the table, no repeats, best first, and nothing better left out |
| SearchEndpoint.Search | app/api.py:86-146 | An empty query gives 400 "Query tidak boleh kosong". Otherwise the query is echoed with the ranked results of its filters. Suggestions (close matches of the preprocessed query among all titles) are present iff there is no result |
| SearchEndpoint.GetJobDetail | app/api.py:150-165 | 404 "Job ID tidak ditemukan" iff the id is negative or past the table, else each of that row's nine fields |
| SearchEndpoint.HitIdsResolve | app/api.py:128-137 | The id of every result opens a detail with the same fields the result showed |
| JobList.Truthy | frontend/src/components/JobList.js:78-160 | JavaScript truthiness: undefined, null, false, 0 and "" are falsy, everything else truthy (definition) |
| JobList.Or | frontend/src/components/JobList.js:144-156 | `v \|\| fallback` is v when truthy and the fallback otherwise |
| JobList.Truncate | frontend/src/components/JobList.js:172-174 | Shortening a description (definition); TruncateShape and TruncateIdempotent state its effect |
| JobList.TruncateShape | frontend/src/components/JobList.js:172-174 | At most 250 characters are shown unchanged; longer descriptions show their first 250 characters and "...", 253 in all |
| JobList.TruncateIdempotent | frontend/src/components/JobList.js:172-174 | Shortening twice is shortening once |
| JobList.DescriptionOf | frontend/src/components/JobList.js:160-177 | The description block is shown iff the description is truthy, a string one shortened. A falsy description shows nothing, except the number 0, which React renders as "0" |
| JobList.CardOf | frontend/src/components/JobList.js:39-177 | A card from a job (definition); Render, CardsFollowJobs, FallbacksNeverBlank and ZeroScoreShowsDash state what it shows |
| JobList.Render | frontend/src/components/JobList.js:12-42 | Null, undefined or empty jobs give only "Tidak ada hasil ditemukan."; otherwise one card per job, in order |
| JobList.CardsFollowJobs | frontend/src/components/JobList.js:39-42 | Each card links to its job's URL, in input order |
| JobList.FallbacksNeverBlank | frontend/src/components/JobList.js:78-156 | Job type, date, salary and score are never falsy on a card. A falsy job type, date or score shows "-" and a falsy salary "Tidak tersedia". A falsy logo shows the placeholder |
| JobList.ZeroScoreShowsDash | frontend/src/components/JobList.js:156 | A score of 0 shows "-" |
| JobSearchForm.FirstsAppend | frontend/src/components/JobSearch.js:26-27 | The transcript of consecutive results is the concatenation of their transcripts |
| JobSearchForm.Transcript | frontend/src/components/JobSearch.js:25-28 | The transcript is the best alternatives from `resultIndex` to the end, concatenated, and "" when `resultIndex` is past the end |
| JobSearchForm.ServerErrorText | frontend/src/components/JobSearch.js:83 | The message is the server's error when non-empty and the fallback otherwise, never "" |
| JobSearchForm.Blank | frontend/src/components/JobSearch.js:68 | `!query.trim()`: the trimmed query is empty (definition); BlankIsAllSpace states its meaning |
| JobSearchForm.BlankIsAllSpace | frontend/src/components/JobSearch.js:68 | A query is blank iff all its characters are JavaScript whitespace |
| JobSearchForm.JobSearch.constructor | frontend/src/components/JobSearch.js:5-22 | Empty form. With speech support: the "id-ID" interim single-shot recogniser and no error. Without: no recogniser and the unsupported-browser message |
| JobSearchForm.JobSearch.Edit | frontend/src/components/JobSearch.js:156 | Typing replaces the query and changes nothing else |
| JobSearchForm.JobSearch.OnResult | frontend/src/components/JobSearch.js:24-30 | A dictation result replaces the query with the event's transcript and changes nothing else |
| JobSearchForm.JobSearch.OnError | frontend/src/components/JobSearch.js:32-36 | A dictation error shows "Error pada pengenalan suara: " + reason, ends listening and stops the recogniser |
| JobSearchForm.JobSearch.OnEnd | frontend/src/components/JobSearch.js:38-40 | A natural end only ends listening; the error stays |
| JobSearchForm.JobSearch.ToggleListening | frontend/src/components/JobSearch.js:49-64 | Without a recogniser nothing changes. While listening: stop, not listening. Otherwise: start, listening, error cleared. If start throws: "Perekaman suara sudah berjalan" and still not listening |
| JobSearchForm.JobSearch.BeginSearch | frontend/src/components/JobSearch.js:66-78 | A blank query sets "Masukkan kata kunci pencarian" and nothing else: no request, loading unchanged. Otherwise: error cleared, loading, and the untrimmed query sent |
| JobSearchForm.JobSearch.CompleteSearch | frontend/src/components/JobSearch.js:79-88 | Loading ends on every path. Ok hands `data.results` to the page and keeps the error. An error response shows its message or the fallback. A failure shows "Gagal menghubungi server". Neither of those two touches the page's results |
| JobSearchForm.JobSearch.HandleSearch | frontend/src/components/JobSearch.js:66-89 | A whole submit: a blank query only shows the message; otherwise one request, loading false at the end, and the outcome's effect on error and results |
| JobSearchForm.JobSearch.Unmount | frontend/src/components/JobSearch.js:42-46 | Unmounting stops the recogniser when there is one |
| Scraper.FetchJobDetail | scripts/scraper.py:33-55 | Work type and description are each the page's element text only when the page answered 200 and has that element, else their placeholders, decided independently |
| Scraper.JobUrl | scripts/scraper.py:108-109 | The site followed by the link, or "URL not found" (definition); LinkedUrlIsNotPlaceholder states that the two never meet |
| Scraper.LinkedUrlIsNotPlaceholder | scripts/scraper.py:108-109 | A linked job's URL starts with the site and never equals "URL not found" |
| Scraper.LogoUrl | scripts/scraper.py:111-116 | The logo is the image's `src` only when the container holds an image with one, else "Logo not available" |
| Scraper.RecordOf | scripts/scraper.py:93-119 | The record of one article (definition); RecordPlaceholders states its fields |
| Scraper.RecordPlaceholders | scripts/scraper.py:93-119 | Each field is the article's text when present and its own placeholder when absent. The URL is the site plus the link, or "URL not found" exactly when there is no link. A job without a link gets the job type and description placeholders, because fetching "URL not found" raises |
| Scraper.RecordsOf | scripts/scraper.py:91-116 | One record per article, in page order |
| Scraper.NewRecords | scripts/scraper.py:121-134 | The dedup of a run (definition); the four lemmas below state its properties |
| Scraper.NewRecordsUnique | scripts/scraper.py:121-134 | A run never keeps the same URL twice, so at most one link-less job |
| Scraper.NewRecordsFresh | scripts/scraper.py:121-134 | A run never keeps a URL that was known at its start, which for a file that starts with its header are the URLs of its rows (ScrapeJobs) |
| Scraper.NewRecordsInOrder | scripts/scraper.py:91-133 | The kept records are the scraped ones with some left out, in scraping order |
| Scraper.NewRecordsComplete | scripts/scraper.py:121-134 | Every scraped URL is either already known or kept |
| Scraper.NewRecordsAppend | scripts/scraper.py:71-134 | Deduplicating page after page, with the URLs kept so far as known, equals deduplicating the whole run |
| Scraper.Continues | scripts/scraper.py:78-87 | A page lets the loop go on iff it answered 200 and has articles, the negation of the two break tests (definition) |
| Scraper.FirstStop | scripts/scraper.py:73-87 | The stop page is the first that did not answer 200 or had no articles; all earlier pages continue |
| Scraper.RowLines | scripts/scraper.py:29-30 | One CSV line per record, in order |
| Scraper.Rows | scripts/scraper.py:59-63 | The reader yields every line after the first, in order |
| Scraper.RowsAfterAppend | scripts/scraper.py:29-63 | Rows appended after a first line read back as themselves |
| Scraper.CsvFile.constructor | scripts/scraper.py:16-19 | A file is absent with no lines or present with its lines |
| Scraper.CsvFile.Save | scripts/scraper.py:14-31 | Write mode empties the file. The header is written iff the file did not exist or the mode is write, so appending to an existing empty file writes no header. Then one line per record. The file exists afterwards |
| Scraper.AppendKeepsHeader | scripts/scraper.py:19-30 | Appending to an absent or well-formed file leaves the header first and only there, and its rows read back as old rows then new ones |
| Scraper.Cells | scripts/scraper.py:22-23 | A row has nine cells in the file's column order, the URL seventh |
| Scraper.UrlColumn | scripts/scraper.py:62-64 | `row['URL']` reads the last column the first line names "URL", and there is none iff no name is "URL" |
| Scraper.Column | scripts/scraper.py:63-64 | The keys of the rows in one column (definition) |
| Scraper.UrlColumnIsUrls | scripts/scraper.py:22-64 | The seventh column holds the URLs |
| Scraper.LastByColumn | scripts/scraper.py:63-64 | The dictionary built row by row (definition); LastByColumnIsLast states it |
| Scraper.LastByColumnIsLast | scripts/scraper.py:59-64 | The keys are the rows' keys and each maps to the last row with that key |
| Scraper.ReadExisting | scripts/scraper.py:57-65 | What loading yields: an empty dictionary for an absent or empty file, a KeyError for a file whose first line names no "URL" column and has rows, else the rows keyed by that column (definition) |
| Scraper.HeaderedFileKeysUrls | scripts/scraper.py:59-64 | A file that starts with the header loads without error, keyed by the URLs of its rows |
| Scraper.HeaderlessFileRaises | scripts/scraper.py:19-64 | Two or more rows appended to an existing empty file get no header, and loading that file raises KeyError when the first row has no cell "URL" |
| Scraper.LoadExistingJobs | scripts/scraper.py:57-65 | The loop's result is what loading yields: the error, or each key of the file with its last row |
| Scraper.DedupStep | scripts/scraper.py:122-134 | An article's record is kept iff its URL is not yet a key, and then its URL becomes one |
| Scraper.ScrapePage | scripts/scraper.py:89-134 | The page's new records are the deduplication of its records against the keys, and the keys grow by exactly their URLs |
| Scraper.SaveStep | scripts/scraper.py:139-141 | Appending a page's records extends the run's saved records by exactly those |
| Scraper.PageNumbers | scripts/scraper.py:69-143 | Page numbers start at 1 and go up by one |
| Scraper.AtStop | scripts/scraper.py:78-87 | The first page that fails or is empty is the stop page |
| Scraper.BeforeStop | scripts/scraper.py:78-87 | A page that continues lies before the stop page |
| Scraper.PageStep | scripts/scraper.py:121-141 | After a page, the run's records are the earlier ones plus the page's new ones, and the keys are their URLs |
| Scraper.SavePage | scripts/scraper.py:121-141 | A page's new records are collected and, if any, appended to the file |
| Scraper.ScrapePages | scripts/scraper.py:69-143 | Pages 1 to the stop page are requested. The total is the number of records saved. The file gains the header if it was absent and something was saved, then exactly the run's new records |
| Scraper.ScrapeJobs | scripts/scraper.py:67-146 | When loading raises, nothing is requested and the file is unchanged; a file that starts with its header never raises and its row URLs are the known keys. Otherwise as ScrapePages, with the loaded keys as the known URLs |

## Left out

- TF-IDF vectorisation and cosine similarity (app/api.py:78-82,98-99) are floating-point library code. The scores enter `Search` as a non-negative sequence.
- `round(score, 4)` (app/api.py:138) is floating-point formatting. A result carries the raw score.
- `difflib.get_close_matches` (app/api.py:60-62) is library code. It is the `closeMatches` parameter of `Search`.
- The NLTK Indonesian stop-word list (app/api.py:31-32) is data downloaded at start-up. It is the `stop` parameter.
- Loading the CSV file, `fillna`, Flask routing, CORS and JSON encoding (app/api.py:13-28,149) are I/O. The table is a sequence of rows with empty cells as "".
- `pd.to_numeric(..., errors='coerce')` (app/api.py:109) is given per row as `salaryValue`. The `try/except` around the salary filter (app/api.py:108,114-115) is not modelled, since nothing in it can raise once salaries are numbers or absent.
- pandas' `str.contains` (app/api.py:103,105) treats its argument as a regular expression. The model uses plain substring search.
- Python's `lower()` is modelled on ASCII letters only. JavaScript's UTF-16 `length`/`slice` are modelled on characters.
- Ranking.Argsort: ties between equal scores are ordered later-position-first, as a stable ascending sort reversed would be. numpy's default sort does not fix that order. No proved property depends on it.
- QueryProcessing.Numbers: states how many numbers there are, not their values. Their values come from `DecimalValue`, the decimal reading of each run of digits.
- QueryProcessing.Numbers: reads runs of ASCII digits only. `\d` and `int()` also accept every other Unicode decimal digit, so for ">٥" the source finds the bound 5 where the model finds none.
- `set(expanded)` iteration order (app/api.py:58) is unspecified in Python. `Enumerate` picks any order, and `ExpandSynonyms` states only what holds for every order.
- Flask's `<int:job_id>` converter never produces a negative id. `GetJobDetail` takes any integer and keeps the source's negative check.
- JobSearchForm.JobSearch: the HTTP request, `response.json()` and `encodeURIComponent` are replaced by the request log and an `Outcome` parameter. The log holds the query before URL encoding.
- JobSearchForm.JobSearch: overlapping submissions are not modelled. `HandleSearch` runs one begin/complete pair. `BeginSearch` and `CompleteSearch` can be called separately, but nothing is proved about the order of interleaved completions.
- JobSearchForm.JobSearch: events after unmount are not modelled. Every handler requires a mounted component, because React drops state updates after unmount.
- The form's rendering (submit button shown only for a non-blank query and disabled while loading, frontend/src/components/JobSearch.js:91-200) is markup. `ToggleListening` and `HandleSearch` are the handlers it wires up.
- JobList: styles, animation, the `key`/`delay` props and the image `onError` fallback (frontend/src/components/JobList.js:92-95) are presentation.
- frontend/src/App.js is wiring only. It replaces its `results` with whatever `onResults` receives, which is the `delivered` log.
- Scraper: HTTP requests, BeautifulSoup parsing, `print`, `tqdm` and `time.sleep` (scripts/scraper.py:39-41,76-83,144) are replaced by the page and detail inputs.
- Scraper: the periodic loop `run_scraping_periodically` (scripts/scraper.py:148-157) never ends, so it is not modelled.
- Scraper.ScrapeJobs: requires the site to stop within the given pages, that is a page that fails or is empty. The source loops until the site provides one.
- Scraper: the per-article `try/except` (scripts/scraper.py:92,135-136) is not modelled, since building a record from the parsed fields cannot raise. The `("N/A", "N/A")` branch (scripts/scraper.py:119) is unreachable because the job URL is never empty.
- Scraper.ScrapePages: the two stop checks (status, then no articles) are one test. Only their messages differ, and those are not modelled.
- Scraper.LoadExistingJobs: for a file whose first line is not the header, the source's row dictionaries are keyed by that line's cells. The model stores the row's record instead. Only the keys are read.
- Scraper: the values stored for URLs found during a run (`True`) are never read. The model stores a `Seen` mark and states only the dictionary's keys after a page.
- scripts/search.py is not part of this model.
