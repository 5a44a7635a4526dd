# Resume-based job recommender: the data-shaping core in Dafny

This project models the pure and loop-based logic of `fsd/app.py` and proves properties of it. It covers four pieces:

- **The resume summary parser.** `parse_response_to_dict` and its helper `clean_dict_keys` turn a language model's `Key: Value; Key: Value; ...` summary into a candidate profile: Skills and Languages lists, Companies and Experience mappings, a "Total Years of Experience" figure and, for any other key, the raw value.
- **The job-title ranking and the reconciliation in `main`.** `process_skills` and `find_top_job_titles` rank the titles of a job corpus against the candidate's skills. `find_closest_job_title` picks the candidate's role closest to the predicted title. The 0.2 threshold then decides whether that role's years count.
- **The URL builder.** `generate_url_list` builds the four search URLs.
- **The pure pieces of the listing scraper.** These are the job-id split of a card's urn, `get_unique_entries` and `clean_job_entries`.

Modules (one per file):

| file | module | models |
|---|---|---|
| `wrappers.dfy` | `Wrappers` | `Option` and `Result` |
| `pystring.dfy` | `PyString` | Python's `str.split` (with and without limit 1), `strip`, `join` and `replace` |
| `pydict.dfy` | `PyDict` | Python's insertion-ordered `dict`, as a sequence of pairs with distinct keys. Assigning to an existing key keeps its place. |
| `token_normalizer.dfy` | `TokenNormalizer` | `clean_dict_keys` and the dynamically typed values of a profile |
| `field_parser.dfy` | `FieldParser` | `parse_response_to_dict` |
| `job_matching.dfy` | `JobMatching` | `process_skills`, the stable descending sort, `find_top_job_titles`, `find_closest_job_title` (numpy's first-occurrence `argmax`) and the decision logic of `main` |
| `listing.dfy` | `Listing` | `generate_url_list`, the id split, `get_unique_entries` and `clean_job_entries` |

**The loops are methods.** These are `CleanDictKeys`, `ParseResponseToDict`, `ParseCompanyEntries`, `ParseExperienceEntries` and `FindTopJobTitles`. Each is proved equal to a specification function, and the properties are proved as lemmas about that function.

**Exceptions are values.** Every exception the modelled code raises on its input is an `Err` value, except those listed under "Left out":
- `ParseError.MissingColon` and `ParseError.WrongColonCount` for the parser;
- `MatchError.NoJobTitles` and `MatchError.EmptyExperience` for `main`;
- `ListingError.IdSegmentMissing` for the id split.

**Outside code becomes parameters.** Code outside the core enters the model as function-typed parameters:
- `parseReal` for Python's `float()`, returning `None` where `float()` raises `ValueError`;
- `sim` for `calculate_similarity`;
- `scorer` for the jointly fitted TF-IDF and cosine similarity of `find_closest_job_title`, which returns one score per role;
- the corpus rows, in place of reading `jobs_new.csv`.

**Where one might expect otherwise, the model follows the code:**
- A non-blank segment without `:` raises (`fsd/app.py:60`). It is not skipped.
- Companies and Experience entries are split with `split(':')` and no limit (`fsd/app.py:71`, `79`). An entry with other than exactly one `:` raises. The split on the first `:` applies only to the segment itself.
- A segment with an unrecognised key stores its stripped value unchanged (`fsd/app.py:90`). It is not normalised.
- A corpus title that appears on several rows becomes ONE ranked entry (`fsd/app.py:113`). That entry keeps the position of the title's first row and the score of its last row. The title cannot appear twice in the ranking.
- An empty experience mapping makes `argmax` raise (`fsd/app.py:122`). This is the error `EmptyExperience`, not a fallback to the predicted title.
- Once a role repeats within one Experience value, "Total Years of Experience" need not be the sum of the mapping's values. The mapping keeps only the last entry for that role, while the total adds every entry (`fsd/app.py:85-86`). `FieldParser.DuplicateRoleCountsTwice` proves this. The same happens when roles such as `Dev` and `{Dev}` merge during key cleaning (`fsd/app.py:87`, `TokenNormalizer.CleanDictMergesKeys`): the mapping keeps only the later one's years, but the total counts both.

## Model

| member | source | states |
|---|---|---|
| PyString.Split | fsd/app.py:56 | `s.split(sep)` yields one more piece than `s` has separators, and no piece contains the separator |
| PyString.JoinSplit | fsd/app.py:56 | joining the pieces of a split with the separator gives back the original string |
| PyString.SplitJoin | fsd/app.py:136 | splitting a join of separator-free pieces gives back exactly those pieces |
| PyString.SplitPrefix | fsd/app.py:56 | splitting `p + t` with `p` separator-free extends the first piece of `t`'s split by `p` and leaves the others |
| PyString.SplitOnce | fsd/app.py:60 | `split(':', 1)` unpacks to two parts exactly when a `:` is present; the first part holds no `:`, and the parts with the `:` between them rebuild the line |
| PyString.StripLeft | fsd/app.py:61 | the result is a suffix of the input that does not start with a stripped character, and only stripped characters were removed |
| PyString.StripRight | fsd/app.py:62 | the result is a prefix of the input that does not end with a stripped character, and only stripped characters were removed |
| PyString.Strip | fsd/app.py:61-62 | neither end of the result is a stripped character, and an already stripped string is unchanged |
| PyString.Replace | fsd/app.py:182-185 | replacing every space with a space-free text leaves no space, and a string without a space is unchanged |
| PyString.ReplaceIsJoinSplit | fsd/app.py:182-185 | `s.replace(c, w)` equals `w.join(s.split(c))` |
| PyString.JoinConsHead | fsd/app.py:100 | prefixing the first joined piece prefixes the whole join |
| PyDict.IndexOf | fsd/app.py:115 | the first index holding the element |
| PyDict.Position | fsd/app.py:123 | where a key stands in the iteration order, as an index of an entry with that key |
| PyDict.GetAt | fsd/app.py:177 | in a well-formed dict, the key at index i is found at index i and maps to that entry's value |
| PyDict.Put | fsd/app.py:113 | `d[k] = v`: an existing key keeps its place and takes the new value, a new key goes last, no other key changes, and keys stay distinct |
| PyDict.Dedup | fsd/app.py:113 | the distinct elements, each exactly once, and nothing else |
| PyDict.DedupOrder | fsd/app.py:113-115 | two elements come in the same order in Dedup as their first occurrences do in the input |
| PyDict.DedupOfDistinct | fsd/app.py:25 | a sequence without repeats is unchanged by Dedup |
| PyDict.IndexOfPrefix | fsd/app.py:115 | appending elements does not move the first occurrence of an element already present |
| TokenNormalizer.CleanDict | fsd/app.py:44-53 | the cleaned mapping has distinct keys, no key or string value begins or ends with `'`, `{` or `}`, and it has no more entries than the input |
| TokenNormalizer.CleanDictKeys | fsd/app.py:44-53 | the loop that fills `cleaned_dict` computes CleanDict of its input |
| TokenNormalizer.CleanDictKeyOrder | fsd/app.py:46-52 | the output keys are the cleaned input keys, each once, in the order of their first occurrence |
| TokenNormalizer.CleanDictLookup | fsd/app.py:47-52 | each output key holds the cleaned value of the last input entry whose key cleans to it; non-string values pass unchanged; other keys are absent |
| TokenNormalizer.CleanDictOfClean | fsd/app.py:44-53 | a mapping that is already clean is its own cleaning |
| TokenNormalizer.CleanDictIdempotent | fsd/app.py:44-53 | cleaning twice is cleaning once |
| TokenNormalizer.CleanDictMergesKeys | fsd/app.py:47-52 | for any key `k`, the empty key included, not starting or ending with `'`, `{` or `}`, the keys `k` and `{k}` merge into one entry `k`, which holds the cleaned later value |
| TokenNormalizer.StripBraces | fsd/app.py:47 | `strip("'{}")` removes the braces around such a key, the empty key included, and nothing of the key itself |
| TokenNormalizer.CleanFront | fsd/app.py:44-53 | a clean mapping without its last entry is still clean and does not hold the last key |
| FieldParser.ParseResponseToDict | fsd/app.py:55-91 | the segment loop fills `response_dict` exactly as ParseResponse describes, raising where it does |
| FieldParser.ParseSegmentInto | fsd/app.py:59-90 | one pass of the segment loop: a blank segment leaves the dict alone, a non-blank one without `:` raises, and any other segment is stored by StoreField under its stripped key, which raises for a Companies or Experience value with a bad entry |
| FieldParser.StoreFieldInto | fsd/app.py:63-90 | the branches on the key store exactly what StoreField describes, raising where it does |
| FieldParser.ParseCompanyEntries | fsd/app.py:68-72 | the Companies loop fills `companies_dict` as ParseCompanies describes, raising at the first bad entry; CompaniesLookup and CompaniesKeys give its contents |
| FieldParser.CompanyEntryOf | fsd/app.py:71-72 | an entry `name:role` with `:`-free parts yields the stripped name and the stripped role |
| FieldParser.LastCompanyRoleSome | fsd/app.py:70-72 | a company has a last entry exactly when some well-formed entry names it |
| FieldParser.CompaniesLookup | fsd/app.py:70-72 | each company name holds the role of its last entry, a later entry overwriting an earlier one; a name no entry gives keeps its earlier value |
| FieldParser.CompaniesKeys | fsd/app.py:68-72 | the keys of `companies_dict` are exactly the company names the entries give |
| FieldParser.ParseExperienceEntries | fsd/app.py:75-86 | the Experience loop returns `experiences_dict` as ParseExperience describes, together with `total_experience` equal to TotalYears of all entries; it raises exactly when ParseExperience does, with the same error; ExperienceLookup and ExperienceKeys give the mapping's contents |
| FieldParser.LastRoleYearsSome | fsd/app.py:78-85 | a role has a last entry exactly when some well-formed entry names it |
| FieldParser.ExperienceLookup | fsd/app.py:78-85 | each role holds the years of its last entry, a later entry overwriting an earlier one; a role no entry gives keeps its earlier value |
| FieldParser.ExperienceKeys | fsd/app.py:75-85 | the keys of `experiences_dict` are exactly the roles the entries give |
| FieldParser.ListFieldPieces | fsd/app.py:63-66 | a Skills or Languages value yields one whitespace-stripped string per `,`-separated piece, in order; `""` yields `[""]` |
| FieldParser.CompanyEntryFails | fsd/app.py:71 | a Companies entry raises exactly when it does not hold exactly one `:` |
| FieldParser.ExperienceEntryFails | fsd/app.py:79 | an Experience entry raises exactly when it does not hold exactly one `:` |
| FieldParser.CompaniesFail | fsd/app.py:70-72 | the Companies loop raises exactly when some entry does not hold exactly one `:` |
| FieldParser.ExperienceFail | fsd/app.py:78-86 | the Experience loop raises exactly when some entry does not hold exactly one `:` |
| FieldParser.StoreCompaniesFails | fsd/app.py:67-73 | a Companies segment raises exactly when one of its `,`-separated entries does not hold exactly one `:` |
| FieldParser.StoreExperienceFails | fsd/app.py:74-88 | an Experience segment raises exactly when one of its `,`-separated entries does not hold exactly one `:` |
| FieldParser.StoreFieldFails | fsd/app.py:63-90 | storing a segment's value raises only for a Companies or Experience value with a bad entry |
| FieldParser.SegmentFailsExactly | fsd/app.py:59-90 | a segment raises exactly when it is non-blank without `:`, or a Companies or Experience segment with a bad entry, whatever came before |
| FieldParser.LinesFail | fsd/app.py:58-90 | the segment loop raises exactly when one of the remaining segments does |
| FieldParser.ParseFailsExactly | fsd/app.py:55-91 | parse_response_to_dict raises exactly when some `;`-separated segment does; bad segments are not skipped |
| FieldParser.StoreFieldEffect | fsd/app.py:63-90 | storing a field sets its own key as it would in an empty dict and changes no other key except the total |
| FieldParser.StoreExperienceEffect | fsd/app.py:74-88 | an Experience segment sets "Experience" as it would in an empty dict and changes no other key except the total |
| FieldParser.SegmentEffect | fsd/app.py:59-90 | a segment stores under its own key what it would store on its own and changes no other key except the total |
| FieldParser.LastSegmentWinsFrom | fsd/app.py:58-90 | from any dict, each key other than the total ends up with what the last segment naming it stores, or keeps its value if none does |
| FieldParser.LastSegmentWins | fsd/app.py:55-91 | every key other than the total holds what the LAST segment with that key stores; a later segment overwrites an earlier one; a key no segment names is absent |
| FieldParser.TotalYearsAppend | fsd/app.py:77-86 | the total adds up over consecutive runs of entries |
| FieldParser.StoreExperienceTotal | fsd/app.py:86-88 | storing an Experience value sets "Total Years of Experience" to the sum of the years of all its entries |
| FieldParser.ExperienceSegmentTotal | fsd/app.py:74-88 | an Experience segment sets "Total Years of Experience" to the sum of the years of EVERY entry, unparsable ones adding 0.0 |
| FieldParser.StoreFieldTotal | fsd/app.py:63-90 | storing a field sets "Total Years of Experience" only for an Experience value, to the sum of its entries' years, or for that key itself, to the text given; any other key leaves it alone |
| FieldParser.StoreOtherTotal | fsd/app.py:63-90 | a key other than "Experience" and the total's own leaves the total unchanged |
| FieldParser.SegmentTotal | fsd/app.py:59-90 | a segment sets the total as TotalStored says when it is keyed "Experience" or with the total's key, and otherwise leaves it alone |
| FieldParser.TotalFrom | fsd/app.py:58-90 | from any dict, the total ends up as the last total-setting segment stores it, or keeps its value if no segment sets it |
| FieldParser.TotalOfResponse | fsd/app.py:55-91 | the returned total is set by the LAST segment keyed "Experience" or with the total's key: the sum of the years of every entry of that Experience value, or the text given; absent when no segment sets it |
| FieldParser.ExperienceEntryOf | fsd/app.py:79-85 | an entry `name:years` with `:`-free parts yields the whitespace-stripped name and float() of the years text stripped of `'{} `, or 0.0 where float() raises |
| FieldParser.RepeatedRoleDict | fsd/app.py:78-85 | two entries for the same role leave one dict entry, with the second one's years |
| FieldParser.SplitTwo | fsd/app.py:75 | two `,`-free entries joined by `,` split back into the two |
| FieldParser.DuplicateRoleCountsTwice | fsd/app.py:74-88 | for `role:y1,role:y2` the mapping holds only role ↦ y2 while the total is y1 + y2, so a repeated role counts in the total for each occurrence |
| JobMatching.JoinCommaSpace | fsd/app.py:100 | `", ".join(xs)` is the `","`-join of the first skill and the space-prefixed others |
| JobMatching.SpacedPiecesStrip | fsd/app.py:99-100 | stripping each piece of `", ".join(skills)` gives back the skill it came from, when no skill is blank-padded |
| JobMatching.ProcessSkills | fsd/app.py:99-100 | the candidate's skills joined with `", "`; SkillsRoundTrip parses them back out, and TopJobTitlesOrder ranks the corpus against this document |
| JobMatching.SkillsRoundTrip | fsd/app.py:99-100 | parsing a Skills list back out of the candidate's document gives the skills again, for a non-empty list in which no skill is blank-padded or holds `,` (an empty list comes back as `[""]`) |
| JobMatching.StripConsStripped | fsd/app.py:64 | stripping removes the separating space that `", "` put in front of a stripped skill |
| JobMatching.Insert | fsd/app.py:115 | inserting an index into a sorted run adds exactly that index |
| JobMatching.SortIndices | fsd/app.py:115 | the sort returns a permutation of the indices |
| JobMatching.BeforeTransitive | fsd/app.py:115 | the order of a stable descending sort is transitive |
| JobMatching.InsertSorted | fsd/app.py:115 | inserting into a sorted run keeps it sorted |
| JobMatching.SortIndicesSorted | fsd/app.py:115 | the indices come sorted: higher score first, equal scores in their original order |
| JobMatching.SortedDistinct | fsd/app.py:115 | a sorted run holds each index once |
| JobMatching.Ranked | fsd/app.py:115 | `sorted(d, key=d.get, reverse=True)` returns as many keys as d has |
| JobMatching.RankedSpec | fsd/app.py:115 | the sort returns every key once, by non-increasing score, ties in dict order |
| JobMatching.RankedCovers | fsd/app.py:115 | every key of the dict is among the sorted keys |
| JobMatching.ScoreRows | fsd/app.py:108-113 | job_similarities has distinct keys |
| JobMatching.LastRowSkills | fsd/app.py:111-113 | a title has a last row exactly when it is a corpus title |
| JobMatching.ScoreRowsKeys | fsd/app.py:110-113 | the keys of job_similarities are the corpus titles, each once, in the order of their first rows |
| JobMatching.ScoreRowsLookup | fsd/app.py:110-113 | a title's score is the similarity of the user document with the Key Skills of the LAST row of that title |
| JobMatching.PyPrefix | fsd/app.py:115 | `[:top_n]` keeps the first min(top_n, n) items, and for a negative top_n drops that many from the end |
| JobMatching.FindTopJobTitles | fsd/app.py:107-116 | the loop and the sort compute TopJobTitles |
| JobMatching.RankedBeforeInCorpus | fsd/app.py:113-115 | dict order among the scored titles is first-appearance order in the corpus and the score is the last row's |
| JobMatching.RankedTitles | fsd/app.py:110-115 | the sorted keys hold every corpus title once and nothing else |
| JobMatching.RankedInCorpusOrder | fsd/app.py:110-115 | the sorted keys come ordered by score, ties in the order of the titles' first rows |
| JobMatching.PrefixDistinct | fsd/app.py:115 | a slice `[:top_n]` of a list without repeats has none, and holds only elements of the list |
| JobMatching.TopJobTitlesContents | fsd/app.py:107-116 | min(top_n, number of distinct titles) titles, none twice, all from the corpus |
| JobMatching.TopJobTitlesOrder | fsd/app.py:107-116 | titles by non-increasing score, ties in first-appearance order, and every omitted title ranks after every returned one |
| JobMatching.FirstMaxUnique | fsd/app.py:122 | the first maximal index is determined by the scores |
| JobMatching.ArgMax | fsd/app.py:122 | `argmax` returns an index of the maximum with no earlier maximum |
| JobMatching.FindClosestJobTitle | fsd/app.py:118-125 | an error exactly for an empty experience mapping; otherwise the first role of maximal similarity, with that similarity |
| JobMatching.MatchCandidate | fsd/app.py:166-179 | main: its errors are stated by MatchCandidateErrors, its predicted title by MatchCandidatePredicted, and the threshold reconciliation by MatchCandidateReconciles |
| JobMatching.MatchCandidateErrors | fsd/app.py:169-171 | main raises NoJobTitles exactly for an empty corpus, EmptyExperience for an empty experience mapping with a non-empty corpus, and succeeds otherwise |
| JobMatching.MatchCandidatePredicted | fsd/app.py:169-170 | the predicted title is a corpus title that ranks before every other corpus title |
| JobMatching.MatchCandidateReconciles | fsd/app.py:171-179 | the score is the first maximal role similarity; that role and its years are returned unless the role is `""` or scores below 0.2, in which case the predicted title and 0 years are returned |
| Listing.EncodeSpaces | fsd/app.py:182-185 | no space is left after encoding |
| Listing.GenerateUrlList | fsd/app.py:181-192 | exactly four URLs |
| Listing.GenerateUrlListShape | fsd/app.py:181-192 | the i-th URL embeds the title and the location with spaces encoded by the fixed i-th pair (2B,2B), (20,20), (20,2B), (2B,20), and no space is left in either field |
| Listing.EncodedUrl | fsd/app.py:182-190 | one URL embeds the title and the location with each space replaced by its encoding, and no space is left in either field |
| Listing.EncodeSpacesJoin | fsd/app.py:182-185 | `s.replace(" ", enc)` joins the space-separated words of `s` with `enc`, leaving no space |
| Listing.SearchUrlEnds | fsd/app.py:187-190 | every URL starts with the search endpoint and ends with `&start=50` |
| Listing.JobId | fsd/app.py:136 | `split(":")[3]` succeeds exactly when the urn has at least three `:`, and the id holds no `:` |
| Listing.JobIdOfPieces | fsd/app.py:136 | an urn made of `:`-free pieces yields its fourth piece |
| Listing.JobIds | fsd/app.py:134-137 | the ids come one per card, in order, and the loop raises exactly when some urn does |
| Listing.UniqueEntries | fsd/app.py:24-25 | every input element exactly once and nothing else |
| Listing.UniqueEntriesShorter | fsd/app.py:24-25 | the result is never longer than the input |
| Listing.UniqueEntriesOfDistinct | fsd/app.py:24-25 | a list without repeats keeps all its elements, each once |
| Listing.CleanJobEntries | fsd/app.py:35-37 | a posting is kept exactly when it is an input posting with a company name; never longer than the input |
| Listing.CleanJobEntriesAppend | fsd/app.py:35-37 | filtering commutes with concatenation, so kept postings keep their relative order |
| Listing.CleanJobEntriesCount | fsd/app.py:35-37 | a posting with a company is kept as often as it occurs; the others are dropped |
| Listing.CleanJobEntriesIdempotent | fsd/app.py:35-37 | filtering twice is filtering once |

## Left out

- The Flask application, routes, sessions, bcrypt and the SQLAlchemy user store (`fsd/app.py:195-359`): web plumbing, not data logic.
- PDF text extraction and the Gemini call and configuration (`fsd/app.py:21`, `27-33`, `39-42`): foreign libraries and network.
- `read_csv` (`fsd/app.py:93-97`): file I/O. `main` takes the corpus rows as a parameter, with the file's 'Job Title' and 'Key Skills' columns.
- The HTTP fetches, BeautifulSoup lookups, the per-field try/except and the pandas DataFrame of `scraper` (`fsd/app.py:127-164`): network and HTML parsing. A posting's fields arrive as `Option` values, `None` where a lookup raised.
- Listing.JobIds: a card without a `base-card` div or without a `data-entity-urn` attribute raises `AttributeError` on `None`; the model starts from the urn strings.
- TF-IDF vectorisation and cosine similarity (`fsd/app.py:102-105`, `119-121`): floating-point numerics in a foreign library, taken as the parameters `sim` and `scorer`. Their range [0, 1] and the `ValueError` a vectoriser raises on an empty vocabulary are not modelled.
- Python's `float()` (`fsd/app.py:82`) is the parameter `parseReal`. NaN and infinities are not reals and are left out, and sums are exact real sums rather than rounded binary ones.
- JobMatching.MatchCandidate: the fallback years is the integer `0` in the source and `0.0` here, since the model holds years as reals.
- JobMatching.MatchCandidate: the threshold `0.2` is the exact real 1/5, while the source compares with the nearest binary double.
- JobMatching.FindTopJobTitles: `top_n` is a parameter for any integer; `main` passes the default 10, held in `TopN`.
- Listing.UniqueEntries: `list(set(...))` leaves the order to Python's set. The model picks first-occurrence order, and its contract promises no order, only membership and that each element occurs once.
- `fsd/static/scripts.js`: a browser timer that hides alerts, with no logic to model. It is not part of this model.
