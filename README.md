# HireSensei job-matching backend, modelled in Dafny

HireSensei is a job-search assistant. It fetches postings from the JSearch API and from three
scrapers (RemoteOK, We Work Remotely and the Hacker News jobs page), normalizes and
deduplicates them, and caches them. It parses uploaded resumes into fields and skills, and
scores each posting against a resume. It also keeps each user's saved, applied and
not-interested jobs and serves a dashboard. Its Next.js front end guards pages with a small
routing middleware.

This project models that core as Dafny datatypes, functions, methods and classes, and proves
what each operation promises:

- **Utilities.** `text.dfy` covers ASCII character classes, `lower`/`strip`/`split` and regex
  whole-word search. `sorting.dfy` is a stable sort. `paging.dfy` covers `skip`/`limit`
  pages. `wrappers.dfy` holds `Option`. `postings.dfy` holds the `HybridJob` record and
  naive/aware datetimes.
- **Job sources.** `normalize.dfy`, `deduplicate.dfy`, `merge_jobs.dfy`, `api_jobs.dfy`,
  `scrape_remoteok.dfy`, `scrape_wwr.dfy`, `scrape_hn.dfy`, `feeds.dfy`, `job_fetcher.dfy`
  and `search_links.dfy`.
- **Matching.** `text_similarity.dfy` (experience years and similarity),
  `skill_extraction.dfy`, `matching_engine.dfy` and `skill_analysis.dfy`.
- **Routes**, with the MongoDB collections modelled as sequences in collection order.
  `keyword_cache.dfy` covers `/jobs` search and its 24-hour keyword cache. The others are
  `hybrid_routes.dfy`, `recommend.dfy`, `resume_parser.dfy`, `resume_routes.dfy`,
  `job_tracking.dfy` and `dashboard.dfy`.
- **Front end.** `middleware.dfy` is the page guard.

Code that updates state in place is modelled with state:

- The deduplication sort works on an `array`.
- The hybrid cache, the keyword cache, the tracking collection and the resume collection are
  classes whose methods update their fields.
- Loops are methods with invariants, each proved equal to a specification function.

Clocks, random identifiers, hashes, HTTP replies, HTML and RSS parsing, PDF and DOCX readers
and spaCy's named entities are parameters of the functions that use them.

Experience is measured in tenths of a year, because every value the source computes is a
multiple of 0.1. Scores are exact rationals.

## Model

| member | source | states |
|---|---|---|
| Normalize.OrDefault | backend/app/services/job_sources/normalize.py:27-32 | `value or default`: a truthy value is kept, and `None` or "" gives the default |
| Normalize.NormalizeFields | backend/app/services/job_sources/normalize.py:21-38 | Title, company, location, description and apply link fall back to "Unknown Title", "Unknown Company", "Remote", "" and "#", so the required fields are never empty. Other fields are copied. `fetched_at` is the clock reading. An aware `published_at` becomes the same instant as naive UTC, and the call fails iff that conversion overflows |
| Normalize.JobTypeDefault | backend/app/services/job_sources/normalize.py:13-31 | An omitted `job_type` is "Full-time", and an explicit `None` is kept |
| Normalize.NormalizeIdempotent | backend/app/services/job_sources/normalize.py:25-37 | Normalizing a normalized posting's own fields gives the same posting back |
| Deduplicate.DeduplicateJobs | backend/app/services/job_sources/deduplicate.py:5-38 | The array is sorted in place by source priority, and the returned list is the single pass over it that skips seen links and seen (title, company) keys |
| Deduplicate.KeptDistinct | backend/app/services/job_sources/deduplicate.py:19-36 | No two kept postings share an apply link or a title key |
| Deduplicate.DroppedClashes | backend/app/services/job_sources/deduplicate.py:19-36 | A posting is dropped only when an earlier kept posting shares its link or its title key |
| Deduplicate.KeptOfDistinct | backend/app/services/job_sources/deduplicate.py:19-36 | A list without repeated links or keys is kept whole |
| Deduplicate.DedupeProperties | backend/app/services/job_sources/deduplicate.py:16-38 | The result has unique links and keys, is in api, wwr, remoteok, hn priority order, and is a subsequence of a permutation of the input |
| Deduplicate.AtMostOnePlaceholder | backend/app/services/job_sources/deduplicate.py:21-35 | At most one kept posting has the placeholder link "#" |
| Deduplicate.DedupeIdempotent | backend/app/services/job_sources/deduplicate.py:5-38 | Deduplicating twice gives the same result as deduplicating once |
| SearchLinks.QuoteByte | backend/app/services/job_sources/search_links.py:4-5 | `quote` keeps letters, digits, `_.-~` and `/`, and writes every other byte as `%` plus two hex digits |
| SearchLinks.QuoteSeparatorFree | backend/app/services/job_sources/search_links.py:4-5 | Quoted text never holds a space, `&`, `?`, `#` or `=` |
| SearchLinks.UnquoteQuote | backend/app/services/job_sources/search_links.py:4-5 | Percent-decoding `quote(s)` gives back the UTF-8 bytes of `s` |
| SearchLinks.QuoteKeptText | backend/app/services/job_sources/search_links.py:4-5 | Quoting text made only of kept characters leaves it unchanged |
| SearchLinks.GenerateSearchLinks | backend/app/services/job_sources/search_links.py:3-11 | The result has exactly the keys linkedin, indeed and google_jobs |
| SearchLinks.SearchLinksSlots | backend/app/services/job_sources/search_links.py:7-11 | Each URL is its fixed prefix with the quoted query and location in their slots, and the query parameter ends at the first `&` |
| SearchLinks.EmptyLocation | backend/app/services/job_sources/search_links.py:3-9 | The default location gives an empty `l` parameter |
| Middleware.Decide | frontend/middleware.ts:4-35 | Static assets always pass, and the only redirect targets are "/login" and "/dashboard" |
| Middleware.DecideCases | frontend/middleware.ts:9-34 | A non-public page without a token redirects to "/login". "/login" or "/register" with a token redirects to "/dashboard". Everything else passes. Each case is an iff |
| Middleware.NoRedirectLoop | frontend/middleware.ts:9-34 | A redirect target passes the guard for the same visitor, so redirects never chain |
| MergeJobs.HybridCache.constructor | backend/app/services/job_sources/merge_jobs.py:12-13 | The cache collection starts empty |
| MergeJobs.HybridCache.GetHybridJobs | backend/app/services/job_sources/merge_jobs.py:15-99 | One call of `get_hybrid_jobs` returns the response and leaves the cache collection as the cache-or-fetch rule says |
| MergeJobs.CacheKeyIgnoresCase | backend/app/services/job_sources/merge_jobs.py:20 | Query and location enter the cache key lowercased |
| MergeJobs.CacheKeySeparatesRemote | backend/app/services/job_sources/merge_jobs.py:20 | Remote and on-site searches never share a cache key |
| MergeJobs.HitServesStored | backend/app/services/job_sources/merge_jobs.py:23-35 | A fresh entry is returned as stored, with `from_cache` set, and nothing is written |
| MergeJobs.MissThenServe | backend/app/services/job_sources/merge_jobs.py:23-99 | After a miss at time t, the same request is served from the cache, with the same jobs and sources, iff it comes before t + 6 h. Entries for other keys are untouched |
| MergeJobs.GatheredMembers | backend/app/services/job_sources/merge_jobs.py:47-71 | The merged list holds exactly the jobs of the adapters that returned a list, so an adapter that raised contributes nothing |
| MergeJobs.UsedTagsExact | backend/app/services/job_sources/merge_jobs.py:52-71 | A source tag is listed iff its adapter returned a non-empty list, and the tags keep the order api, remoteok, wwr, hn |
| MergeJobs.AggregateProperties | backend/app/services/job_sources/merge_jobs.py:73-78 | The fresh result is deduplicated by link and title key, ordered newest `published_at` first with undated jobs last, is stable among equal dates, and holds only gathered jobs |
| ApiJobs.SearchQuery | backend/app/services/job_sources/api_jobs.py:20-22 | The query gets " in <location>" appended iff the location is truthy |
| ApiJobs.BuildRequest | backend/app/services/job_sources/api_jobs.py:11-31 | A request is sent iff the API key is configured |
| ApiJobs.SearchParamsSpec | backend/app/services/job_sources/api_jobs.py:24-31 | The parameters are the query text, page "1" and num_pages "1", plus remote_jobs_only "true" exactly for remote searches |
| ApiJobs.ApiLocationMissing | backend/app/services/job_sources/api_jobs.py:51 | Without a city and a country the location is empty, so the posting reads "Remote" |
| ApiJobs.ApiLocationCityCountry | backend/app/services/job_sources/api_jobs.py:51 | A city and a country give "City, Country" |
| ApiJobs.ApiLocationCountryOnly | backend/app/services/job_sources/api_jobs.py:51 | A country without a city stands alone after the strip |
| ApiJobs.FetchJsearchJobs | backend/app/services/job_sources/api_jobs.py:10-63 | The method sends the request the parameters call for, and returns one posting per item of a well-formed reply |
| ApiJobs.ApiJobSpec | backend/app/services/job_sources/api_jobs.py:47-58 | Each field of a posting is read with `dict.get` under the normalization defaults. The source is "api", there is no date, and the raw item is kept |
| ApiJobs.ApiJobsSpec | backend/app/services/job_sources/api_jobs.py:40-63 | There is one posting per item, in order, when a key is set and the reply has a `data` list. Otherwise the list is empty |
| ApiJobs.ItemPostings | backend/app/services/job_sources/api_jobs.py:41-59 | The loop over `data` yields one posting per item, in order, each the normalized posting of that item |
| Feeds.Collect | backend/app/services/job_sources/scrape_remoteok.py:34-101 | The loop keeps at most one posting per item, and skipped items yield nothing |
| Feeds.CollectMembers | backend/app/services/job_sources/scrape_remoteok.py:37-101 | A collected posting is exactly the posting of some item that was not skipped |
| Feeds.LastSegment | backend/app/services/job_sources/scrape_remoteok.py:85 | `link.split('/')[-1]` is the suffix after the last '/' and holds no '/' |
| ScrapeRemoteOk.RelevantIffTokens | backend/app/services/job_sources/scrape_remoteok.py:54-65 | The phrase test adds nothing: an item passes iff every whitespace token of the lowercased query occurs in its lowercased title and description |
| ScrapeRemoteOk.EmptyQueryRelevant | backend/app/services/job_sources/scrape_remoteok.py:59-65 | An empty query keeps every item |
| ScrapeRemoteOk.SplitTitle | backend/app/services/job_sources/scrape_remoteok.py:68-74 | "Company: Role" splits at the first colon, both halves stripped. Without a colon the company is "RemoteOK" |
| Feeds.FeedJobId | backend/app/services/job_sources/scrape_remoteok.py:85 | The id is the site prefix plus the last path segment of a truthy link, otherwise plus the title's hash; the WeWorkRemotely adapter builds its id the same way with "wwr-" (scrape_wwr.py line 74) |
| ScrapeRemoteOk.ScrapeRemoteOk | backend/app/services/job_sources/scrape_remoteok.py:8-107 | The loop returns the postings of the usable items in feed order, and none for an unusable feed |
| ScrapeRemoteOk.RemoteOkItemSpec | backend/app/services/job_sources/scrape_remoteok.py:37-101 | An item yields a posting when it has a title and a link, passes the filter, and has a representable date. The posting is remote, tagged "remoteok", and keeps the RSS title |
| ScrapeRemoteOk.RemoteOkJobsTagged | backend/app/services/job_sources/scrape_remoteok.py:87-99 | Every returned posting is a remote "remoteok" posting carrying its RSS title |
| ScrapeWwr.StripTags | backend/app/services/job_sources/scrape_wwr.py:53 | `re.sub(r'<[^>]+>', '', s)` only removes characters |
| ScrapeWwr.StripTagsTagFree | backend/app/services/job_sources/scrape_wwr.py:53 | No tag is left after the substitution |
| ScrapeWwr.StripTagsOfTagFree | backend/app/services/job_sources/scrape_wwr.py:53 | Tag-free text is left unchanged |
| ScrapeWwr.CleanDescriptionIdempotent | backend/app/services/job_sources/scrape_wwr.py:51-53 | Cleaning a cleaned description changes nothing |
| ScrapeWwr.CleanDescriptionTagFree | backend/app/services/job_sources/scrape_wwr.py:51-53 | A cleaned description holds no tag |
| ScrapeWwr.SplitTitle | backend/app/services/job_sources/scrape_wwr.py:57-63 | "Role: Company" splits at the first colon, both halves stripped. Without a colon the company is "WeWorkRemotely" |
| ScrapeWwr.ScrapeWwr | backend/app/services/job_sources/scrape_wwr.py:9-98 | The loop returns the postings of the usable items in feed order |
| ScrapeWwr.WwrItemSpec | backend/app/services/job_sources/scrape_wwr.py:39-93 | An item yields a posting iff it has a title with text, a link, no empty description element, a convertible date, and passes the query filter on its title half and its description. Its posting has a tag-free description and the "Role: Company" split, and is tagged "wwr" |
| ScrapeWwr.CompanyNotSearched | backend/app/services/job_sources/scrape_wwr.py:76-77 | A query found only in the company half of the title drops the item |
| ScrapeWwr.WwrJobsTagged | backend/app/services/job_sources/scrape_wwr.py:79-91 | Every returned posting is a remote "wwr" posting with a tag-free description |
| ScrapeHn.AbsoluteLink | backend/app/services/job_sources/scrape_hn_jobs.py:42-43 | A link not starting with "http" is prefixed with the site, so every link starts with "http" |
| ScrapeHn.AbsoluteLinkIdempotent | backend/app/services/job_sources/scrape_hn_jobs.py:42-43 | Making a link absolute twice is the same as once |
| ScrapeHn.SplitTitle | backend/app/services/job_sources/scrape_hn_jobs.py:51-62 | "X is hiring Y" gives company X and title Y. Otherwise "X: Y" splits at the first colon. Otherwise the title is the text and the company "HackerNews Job" |
| ScrapeHn.JobId | backend/app/services/job_sources/scrape_hn_jobs.py:64 | The id is "hn-" plus the row id, or "hn-None" without one |
| ScrapeHn.ScrapeHnJobs | backend/app/services/job_sources/scrape_hn_jobs.py:7-84 | The loop returns, in page order, the postings of the rows that have a title line and an anchor with an href and pass the filter |
| ScrapeHn.HnItemSpec | backend/app/services/job_sources/scrape_hn_jobs.py:28-79 | A row yields a posting iff it has a title line with an anchor (even one without text) that has an href, and passes the filter. The posting's fields are as the loop builds them |
| ScrapeHn.EmptyAnchorExample | backend/app/services/job_sources/scrape_hn_jobs.py:34-66 | An anchor with no text and a relative link yields a posting titled "Unknown Title" with an empty description and the link made absolute |
| ScrapeHn.HnJobsTagged | backend/app/services/job_sources/scrape_hn_jobs.py:66-77 | Every returned posting is an undated "hn" posting with an absolute link |
| JobFetcher.FetchJobsFromApi | backend/app/services/job_fetcher.py:8-73 | The method sends the same request as the hybrid JSearch client, and returns one record per item of a well-formed reply, in order |
| JobFetcher.RecordsAgreeWithPostings | backend/app/services/job_fetcher.py:53-67 | The two JSearch clients agree item by item. There are as many records as postings, and each posting is its record with the normalization defaults filled in |
| TextSimilarity.CalculateSimilarity | backend/app/utils/text_similarity.py:5-18 | The score is between 0 and 100, and 0 when either text is empty |
| TextSimilarity.SimilarityIgnoresCase | backend/app/utils/text_similarity.py:13-18 | Lowercasing the inputs first does not change the score |
| TextSimilarity.MonthNum | backend/app/utils/text_similarity.py:50-52 | `get_month_num` always gives a month from 1 to 12 |
| TextSimilarity.MonthNumSpec | backend/app/utils/text_similarity.py:43-52 | A month is recognised by its first three letters in any case, and anything else counts as January |
| TextSimilarity.DateRangeAt | backend/app/utils/text_similarity.py:39-40 | A match of the range pattern lies inside the text, after its start |
| TextSimilarity.RangeMonths | backend/app/utils/text_similarity.py:64-94 | A range counts the months from start to end date, and never a negative number |
| TextSimilarity.ExtractYearsOfExperience | backend/app/utils/text_similarity.py:20-124 | The nested loops over texts, range matches and year mentions compute the experience heuristic in tenths of a year |
| TextSimilarity.RoundTwelfthsSpec | backend/app/utils/text_similarity.py:118-122 | `round(months / 12, 1)` is the nearest tenth, ties to even |
| TextSimilarity.MaxBelow40Spec | backend/app/utils/text_similarity.py:102-107 | The running maximum keeps only mentions below 40, and bounds them all |
| TextSimilarity.MaxMentionSpec | backend/app/utils/text_similarity.py:99-124 | The fallback is the largest "N years" mention below 40 in any text, or 0 |
| TextSimilarity.YearsOfExperienceSpec | backend/app/utils/text_similarity.py:111-124 | With any date range found, the result is the rounded sum of the ranges and mentions are ignored. Otherwise it is ten times a year count that some text mentions and that is at least every mention below 40 (the largest such mention), or 0 when there is none |
| TextSimilarity.EndDateNow | backend/app/utils/text_similarity.py:64-85 | An end text naming "present", "now" or "current", or holding no year, ends the range at the current month |
| TextSimilarity.EnDashDoesNotSeparate | backend/app/utils/text_similarity.py:39 | A real en dash is not in the separator class as spelled, so "Jan 2020 – Jan 2022" does not start a range |
| TextSimilarity.NoDigitsNoRange | backend/app/utils/text_similarity.py:39-58 | A text without digits holds no date range |
| TextSimilarity.TwoYearsExample | backend/test_experience_fix.py:23-29 | The second test case, "Software Engineer Jan 2020 - Jan 2022" with "Worked on stuff.", gives 2.0 years whatever the date |
| TextSimilarity.NormalizeSkills | backend/app/utils/text_similarity.py:126-130 | `normalize_skills` never returns more entries than it is given |
| TextSimilarity.NormalizeSkillsSpec | backend/app/utils/text_similarity.py:126-130 | There is one lowercase, stripped entry per non-empty skill, in order |
| TextSimilarity.NormalizeSkillsBlank | backend/app/utils/text_similarity.py:126-130 | Normalizing is not idempotent: a blank skill survives once as "" and is dropped on the second pass |
| SkillExtraction.EntryMap | backend/app/utils/skill_extraction.py:42-44 | The keys one mapping entry assigns are exactly its lowercased variations |
| SkillExtraction.BuildSkillLookup | backend/app/utils/skill_extraction.py:40-44 | The nested loop builds `SKILL_LOOKUP` from the mapping in declaration order, and a later entry overwrites an earlier one |
| SkillExtraction.EntryMapSpec | backend/app/utils/skill_extraction.py:42-44 | A key is assigned by an entry iff it is one of that entry's lowercased variations, and it maps to that entry's canonical name |
| SkillExtraction.VariationsAreKeys | backend/app/utils/skill_extraction.py:40-44 | Every listed variation is a key of the lookup |
| SkillExtraction.CanonicalFixed | backend/app/utils/skill_extraction.py:6-44 | Every canonical name maps to itself |
| SkillExtraction.LastListingWins | backend/app/utils/skill_extraction.py:41-44 | A variation that no later entry lists again, up to case, is a key mapped to its own entry's canonical name: the last assignment wins |
| SkillExtraction.KeysMapToCanonical | backend/app/utils/skill_extraction.py:40-44 | Every key maps to the canonical name of an entry that lists it |
| SkillExtraction.NormalizeWithSpec | backend/app/utils/skill_extraction.py:46-51 | `normalize_skill` lowercases and strips, maps a listed variation to its canonical name, and leaves anything else as cleaned |
| SkillExtraction.NormalizeWithIdempotent | backend/app/utils/skill_extraction.py:46-51 | Normalizing twice is the same as normalizing once, for any well-formed mapping |
| SkillExtraction.NormalizeSkillIdempotent | backend/app/utils/skill_extraction.py:46-51 | `normalize_skill` over the real vocabulary is idempotent |
| SkillExtraction.CanonicalNamesFixed | backend/app/utils/skill_extraction.py:6-51 | Each canonical name of the vocabulary normalizes to itself |
| SkillExtraction.NormalizeListedOnce | backend/app/utils/skill_extraction.py:40-51 | A variation listed by one entry only normalizes to that entry's name |
| SkillExtraction.LookupListedOnce | backend/app/utils/skill_extraction.py:40-44 | A variation listed by one entry only is a key that maps to that entry's canonical name |
| SkillExtraction.NormalizeReactJs | backend/test_skills.py:25 | "React.js" normalizes to "react" |
| SkillExtraction.NormalizeNodeJs | backend/test_skills.py:26 | "Node.js" normalizes to "node.js" |
| SkillExtraction.NormalizeCpp | backend/test_skills.py:27 | "C++" normalizes to "c++" |
| SkillExtraction.ExtractSkillsFromText | backend/app/utils/skill_extraction.py:53-77 | The loop over the lookup collects the canonical names whose variation pattern matches the lowercased text, with "java" not followed by "script" |
| SkillExtraction.ExtractedWithSpec | backend/app/utils/skill_extraction.py:53-77 | A name is extracted iff the text is non-empty and some variation listed under that name, and assigned to it, is found as a whole word |
| SkillExtraction.ExtractedAreCanonical | backend/app/utils/skill_extraction.py:53-77 | Every extracted name is canonical, so normalizing it changes nothing |
| SkillExtraction.ExtractedSkillsCanonical | backend/app/utils/skill_extraction.py:53-77 | Over the real vocabulary, every extracted name normalizes to itself |
| SkillExtraction.CanonicalFound | backend/app/utils/skill_extraction.py:65-75 | A canonical name that occurs as a whole word in the text is extracted |
| SkillExtraction.JsFound | backend/app/utils/skill_extraction.py:8-75 | A whole-word "js" makes "javascript" extracted |
| SkillExtraction.ExtractionExampleFinds | backend/test_skills.py:8-21 | The five names the test expects from its sentence are all extracted |
| SkillExtraction.NormalizeSkillList | backend/app/utils/skill_extraction.py:79-86 | The loop returns the set of the normalized skills |
| SkillExtraction.NormalizedSetSpec | backend/app/utils/skill_extraction.py:79-86 | A normalized list is already normalized and never has more names than the input |
| SkillExtraction.SkillMappingWellFormed | backend/app/utils/skill_extraction.py:6-38 | The vocabulary is well formed: each entry lists its own clean canonical name, and no later entry lists it again |
| MatchingEngine.WordsFound | backend/app/services/matching_engine.py:20-24 | A resume skill is kept iff it occurs in the job text as a whole word |
| MatchingEngine.TechHits | backend/app/services/matching_engine.py:34-43 | A stack keyword is kept iff its pattern matches the job text ("java" not followed by "script") |
| MatchingEngine.FindWords | backend/app/services/matching_engine.py:20-24 | The loop collects exactly the whole-word resume skills, in resume order |
| MatchingEngine.FindTechs | backend/app/services/matching_engine.py:36-43 | The loop collects exactly the matching stack keywords, in stack order |
| MatchingEngine.AppendAbsent | backend/app/services/matching_engine.py:46-48 | The loop appends, in order, the matched skills not already implied |
| MatchingEngine.ScoreSkills | backend/app/services/matching_engine.py:13-63 | The skill half yields the refined matching list, the first five missing skills and the covered share, or 0.5 with empty lists when nothing is implied |
| MatchingEngine.BuildReasons | backend/app/services/matching_engine.py:146-163 | The notes are appended one tier at a time in the fixed order location, skill, role, experience |
| MatchingEngine.CalculateMatchScore | backend/app/services/matching_engine.py:7-181 | The method returns what the scoring function defines: the location gate first, then the weighted, capped score, both skill lists, the experience text and the reason |
| MatchingEngine.SkillScoreBounds | backend/app/services/matching_engine.py:50-61 | The skill component lies between 0 and 1 |
| MatchingEngine.ExpScoreSpec | backend/app/services/matching_engine.py:82-90 | The experience component lies between 0 and 1 and is 1 iff the candidate's years meet the requirement |
| MatchingEngine.RoleScoreBounds | backend/app/services/matching_engine.py:71-76 | The role component lies between 0 and 1 |
| MatchingEngine.FinalScoreBounds | backend/app/services/matching_engine.py:139-143 | With components in [0, 1] and a non-negative bonus, the final score lies between 0 and 100 |
| MatchingEngine.FinalScorePerfect | backend/app/services/matching_engine.py:139-143 | A perfect skill, role and experience match scores 100 whatever the bonus |
| MatchingEngine.FinalScoreMonotone | backend/app/services/matching_engine.py:139-143 | The final score never decreases when a component or the bonus grows |
| MatchingEngine.MatchScoreBounds | backend/app/services/matching_engine.py:7-181 | Every returned match score lies between 0 and 100 |
| MatchingEngine.LocationGate | backend/app/services/matching_engine.py:95-129 | An ineligible location scores 0 with empty skill lists and the two mismatch texts; an eligible one never carries the mismatch text |
| MatchingEngine.ReasonNotesSpec | backend/app/services/matching_engine.py:146-165 | No note iff no tier applies; a remote job is noted first, a met requirement last, and there are at most four notes |
| MatchingEngine.EligibleCases | backend/app/services/matching_engine.py:98-111 | An empty profile location, a remote job, a job location containing the profile's, or an empty job location always pass the filter |
| MatchingEngine.FilterInSpec | backend/app/services/matching_engine.py:58-59 | A kept entry is one of the list whose membership in the other list is as asked |
| MatchingEngine.FilterInSplit | backend/app/services/matching_engine.py:58-61 | The covered and the missing implied skills together number the implied skills |
| MatchingEngine.FilterInDistinct | backend/app/services/matching_engine.py:58-59 | Filtering a distinct list keeps it distinct |
| MatchingEngine.AddAbsentSpec | backend/app/services/matching_engine.py:45-48 | Adding only absent skills keeps the list distinct, keeps its prefix, and contains exactly the old and the added skills |
| MatchingEngine.StackDistinct | backend/app/services/matching_engine.py:34 | The common tech stack lists no keyword twice |
| MatchingEngine.TechHitsDistinct | backend/app/services/matching_engine.py:36-43 | The stack hits are distinct |
| MatchingEngine.ImpliedSpec | backend/app/services/matching_engine.py:36-48 | The implied skills are distinct, and a skill is implied iff it is a matching stack keyword or a whole-word resume skill |
| MatchingEngine.SkillListsSpec | backend/app/services/matching_engine.py:50-63 | The matching skills are exactly the implied skills the resume has, the missing ones at most five implied skills it lacks, both distinct, and the skill component is their covered share |
| MatchingEngine.MatchScoreSkills | backend/app/services/matching_engine.py:167-181 | Past the location gate, the result carries the refined matching list and the first five missing skills |
| MatchingEngine.LexGreaterIsOrder | backend/app/services/matching_engine.py:189-191 | Descending string comparison is a strict total order |
| MatchingEngine.RankJobsSpec | backend/app/services/matching_engine.py:183-196 | "match" sorts by non-increasing score and "latest" by non-increasing date text, each a stable permutation; any other key returns the input unchanged |
| MatchingEngine.RankByMatchFirst | backend/app/services/matching_engine.py:187-188 | Ranking by match puts a highest-scoring job first |
| SkillAnalysis.Occurrences | backend/app/services/skill_analysis.py:82-90 | A skill is counted at most once per job, so its count never exceeds the number of jobs |
| SkillAnalysis.AllSkillsSpec | backend/app/services/skill_analysis.py:82-90 | A skill is named by some job iff it occurs in at least one job |
| SkillAnalysis.DistinctOccurrences | backend/app/services/skill_analysis.py:86-87 | A skill occurs once in a job's list of extracted skills, which has no repetitions |
| SkillAnalysis.GetMarketSkills | backend/app/services/skill_analysis.py:77-92 | At most 1000 cached jobs are read, each job's extracted skills are concatenated, and the counter gives each skill the number of jobs that mention it |
| SkillAnalysis.CountsSpec | backend/app/services/skill_analysis.py:82-90 | A skill is counted iff some job mentions it, and its count lies between 1 and the number of jobs |
| SkillAnalysis.Relevant | backend/app/services/skill_analysis.py:23 | A skill is relevant iff it is counted in at least two jobs |
| SkillAnalysis.MaxFrequency | backend/app/services/skill_analysis.py:25 | The largest relevant frequency: attained by some relevant skill and bounding all, or 1 when none is relevant |
| SkillAnalysis.MaxFrequencyUnique | backend/app/services/skill_analysis.py:25 | Any attained value that bounds all frequencies is the maximum |
| SkillAnalysis.PercentSpec | backend/app/services/skill_analysis.py:29 | A frequency up to the maximum gives a percentage between 0 and 100, and exactly 100 at the maximum |
| SkillAnalysis.Items | backend/app/services/skill_analysis.py:27 | The items of a dictionary are its entries, each key once |
| SkillAnalysis.ComputeMaxFrequency | backend/app/services/skill_analysis.py:25 | The loop computes the maximum relevant frequency, or 1 when there is none |
| SkillAnalysis.CollectMissing | backend/app/services/skill_analysis.py:27-34 | An entry is collected iff it is a relevant skill the user lacks, with its frequency and its percentage of the maximum; each skill once |
| SkillAnalysis.CollectStrengths | backend/app/services/skill_analysis.py:46-58 | One strength per user skill, in user order, with the skill's relevant frequency as a percentage of the maximum, 0 when not relevant |
| SkillAnalysis.MissingSkills | backend/app/services/skill_analysis.py:19-37 | The missing report lists each relevant skill the user lacks exactly once, with its priority, by non-increasing priority |
| SkillAnalysis.TopMarketSkills | backend/app/services/skill_analysis.py:40-43 | At most ten relevant skills with their frequencies, by non-increasing frequency; no skill left out is more frequent than one kept |
| SkillAnalysis.SkillStrengths | backend/app/services/skill_analysis.py:45-60 | The strengths are a permutation of one strength per user skill, by non-increasing coverage |
| SkillAnalysis.AnalyzeSkills | backend/app/services/skill_analysis.py:18-69 | The report holds the user's skills, the relevant skills, the missing, top and strength reports over the relevant skills, and the number of jobs analysed |
| SkillAnalysis.ItemsCount | backend/app/services/skill_analysis.py:27 | One item per key gives as many items as keys |
| SkillAnalysis.TopSpec | backend/app/services/skill_analysis.py:42 | The first ten of the items sorted by frequency are min(10, number of relevant skills) relevant entries, by non-increasing frequency, and no relevant skill left out is more frequent than one kept |
| SkillAnalysis.ListOf | backend/app/services/skill_analysis.py:74 | Listing a set gives each element exactly once |
| SkillAnalysis.GetUserSkills | backend/app/services/skill_analysis.py:71-75 | The user's skills are the distinct normalised resume skills, or none when the resume or its skills field is missing |
| SkillAnalysis.AnalyzeUserSkills | backend/app/services/skill_analysis.py:9-92 | The whole service: the jobs read, each one's extracted skills, and the three reports over the skills counted in at least two jobs |
| Paging.PageCountSpec | backend/app/routes/jobs.py:74 | `total_pages` is the ceiling of total over limit |
| Paging.PageOfSpec | backend/app/routes/jobs.py:121-124 | A page holds the entries from its offset on, at most `limit` of them, in order |
| Paging.PageNonEmptyIff | backend/app/routes/jobs.py:121-130 | A page is non-empty iff its number is at most `total_pages` |
| Sorting.SortBySorted | backend/app/services/matching_engine.py:188 | Python's `sorted` with a key returns a list ordered by that key |
| Sorting.SortByStable | backend/app/services/matching_engine.py:188 | The sort is stable: entries with equal keys keep their input order |
| Sorting.SortByIdempotent | backend/app/services/matching_engine.py:188 | Sorting a sorted list changes nothing |
| KeywordCache.RawKeyIgnoresCase | backend/app/routes/jobs.py:33-35 | The key ignores letter case, and an absent location gives the same key as an empty one |
| KeywordCache.RawKeyAmbiguous | backend/app/routes/jobs.py:33-35 | The hashed text does not separate the query from the location, so two different searches can share a key |
| KeywordCache.KeywordStore.constructor | backend/app/routes/jobs.py:49 | The cached-jobs collection starts empty |
| KeywordCache.KeywordStore.SearchJobs | backend/app/routes/jobs.py:37-132 | The response and the collection afterwards are those the search defines: a fresh first document serves the page, a stale one deletes the search's documents, and a fetch is tagged and appended |
| KeywordCache.TagAll | backend/app/routes/jobs.py:96-100 | Each fetched record is tagged with the search key and the clock reading, in order |
| KeywordCache.WithQueryKeyAppend | backend/app/routes/jobs.py:49-51 | Finding or deleting by key distributes over concatenation of the collection |
| KeywordCache.TaggedKeyed | backend/app/routes/jobs.py:96-103 | The inserted documents all belong to the search |
| KeywordCache.DeleteClears | backend/app/routes/jobs.py:76-78 | After the deletion no document of the search is left, and deleting again changes nothing |
| KeywordCache.ServedFromCacheIff | backend/app/routes/jobs.py:53-74 | A page is served from the collection iff its window is non-empty and its first document is under 24 hours old; then the collection is unchanged, `total` counts all of the search's documents, and the page is within `total_pages` |
| KeywordCache.OtherSearchesUntouched | backend/app/routes/jobs.py:37-132 | The documents of other searches are never changed |
| KeywordCache.KeyedAfterMiss | backend/app/routes/jobs.py:76-103 | Without a fresh page, the search's documents afterwards are the survivors (none after a stale page) followed by the fetched records |
| KeywordCache.EmptyFetch | backend/app/routes/jobs.py:83-94 | An empty fetch answers an empty page with zero totals and inserts nothing |
| KeywordCache.RefetchThenHit | backend/app/routes/jobs.py:37-132 | A search fetched afresh, repeated within 24 hours on the same non-empty page, is served from the collection with the same data and total |
| HybridRoutes.MergeFallbackJobs | backend/app/routes/hybrid_jobs.py:64-71 | The loops append exactly the fallback jobs with a new id and the fallback source tags not yet listed |
| HybridRoutes.FindUserSkill | backend/app/routes/hybrid_jobs.py:102-108 | The loop stops with true iff some lowercased user skill occurs in the text as a whole word |
| HybridRoutes.FilterJobs | backend/app/routes/hybrid_jobs.py:84-113 | The loop keeps, in order, exactly the jobs that pass the experience gate and the skill gate |
| HybridRoutes.ScoreJobs | backend/app/routes/hybrid_jobs.py:116-125 | The loop keeps, in order, the scored jobs whose match score is positive, with their source, type and publication time |
| HybridRoutes.GetRecommendedHybridJobs | backend/app/routes/hybrid_jobs.py:16-143 | Without a resume the route answers "not found" and leaves the cache alone; otherwise it returns the ranked page of the gathered jobs and the cache the searches leave |
| HybridRoutes.GatherJobs | backend/app/routes/hybrid_jobs.py:35-71 | The first search uses the first resume skill or "Software Engineer"; fewer than five jobs for another query adds the fallback search, merged |
| HybridRoutes.RankAndPage | backend/app/routes/hybrid_jobs.py:73-143 | Filtering, positive scoring, ranking by match and paging of the gathered jobs, with the search links and the total of ranked jobs |
| HybridRoutes.SearchHybridJobs | backend/app/routes/hybrid_jobs.py:145-174 | The search page is a page of the aggregate, with the search links, the tags used and the aggregate's size |
| HybridRoutes.NewByIdMembers | backend/app/routes/hybrid_jobs.py:64-67 | A fallback job is appended iff its id is not among the first jobs' ids |
| HybridRoutes.NewByIdOrder | backend/app/routes/hybrid_jobs.py:65-67 | The appended fallback jobs keep the fallback order |
| HybridRoutes.FallbackMergeSpec | backend/app/routes/hybrid_jobs.py:59-71 | The merge keeps the first jobs in front, appends exactly the fallback jobs with a new id in fallback order, and extends the tags without duplicates by exactly the new fallback tags |
| HybridRoutes.DefaultQueryNoFallback | backend/app/routes/hybrid_jobs.py:36-60 | "Software Engineer", in any letter case, never triggers the fallback, and a resume without skills searches for it |
| HybridRoutes.FilteredMembers | backend/app/routes/hybrid_jobs.py:84-113 | A job is kept iff it passes both gates |
| HybridRoutes.FilteredOrder | backend/app/routes/hybrid_jobs.py:84-113 | The gates keep the original order |
| HybridRoutes.MiddleBandKeepsAll | backend/app/routes/hybrid_jobs.py:89-113 | Between 1.5 and 3.0 years of experience inclusive, and without skills, no job is filtered out |
| HybridRoutes.SrDotNeedsWordAfter | backend/app/routes/hybrid_jobs.py:78 | "Sr." matches only when a word character follows it, so "Sr. Dev" passes the senior gate |
| HybridRoutes.ScoredPositiveSpec | backend/app/routes/hybrid_jobs.py:116-125 | Each kept score is the positive score of an input job, and no positive score is lost |
| HybridRoutes.RankedPage | backend/app/routes/hybrid_jobs.py:128-133 | A page of the ranking runs from the highest score down, holds only scored jobs, and is non-empty iff within the page count |
| HybridRoutes.PageJobsFromKept | backend/app/routes/hybrid_jobs.py:84-125 | Each scored job is the score, above zero and at most 100, of a gathered job that passed both gates |
| HybridRoutes.RecommendPageSpec | backend/app/routes/hybrid_jobs.py:73-143 | Every recommended job passed both gates and scored in 1..100, the page runs from the highest score down, `total` counts every positive score, and the page is non-empty exactly up to the last page |
| HybridRoutes.KeptMentionsSkill | backend/app/routes/hybrid_jobs.py:99-111 | With skills on the resume, a kept job mentions one of them, lowercased, as a whole word |
| HybridRoutes.SkillGateHolds | backend/app/routes/hybrid_jobs.py:99-143 | With skills on the resume, every recommended job comes from a gathered job that mentions one of them as a whole word |
| HybridRoutes.SearchPageNewestFirst | backend/app/routes/hybrid_jobs.py:156-165 | On a cache miss the search page runs newest first and is non-empty iff within the page count |
| Recommend.ScoreDocs | backend/app/routes/recommend.py:38-42 | The loop fails iff some read document cannot be scored, and otherwise keeps, in order, the scores above zero |
| Recommend.GetRecommendations | backend/app/routes/recommend.py:12-63 | The handler answers what the route defines: validation, the 500 paths, the empty-collection shape, or a ranked page of the positive scores |
| Recommend.ResponseCases | backend/app/routes/recommend.py:12-63 | A bad query is rejected before the handler; a missing resume or an unscorable document among the first hundred gives 500, never 404; an empty collection gives the empty response with its message |
| Recommend.OnlyFirstHundred | backend/app/routes/recommend.py:31-32 | Documents after the first hundred never change the answer |
| Recommend.PositiveScoresSpec | backend/app/routes/recommend.py:38-42 | Each kept score is the positive score of a read document, and no positive score is lost |
| Recommend.ScoreDocBounds | backend/app/routes/recommend.py:40 | Each document's score lies between 0 and 100 |
| Recommend.PagedSpec | backend/app/routes/recommend.py:44-59 | `total` counts the positive scores, `total_pages` is its ceiling over `limit`, the page is non-empty exactly up to that page, every job on it is a score in 1..100 of a read document, and the order is the requested one |
| Recommend.RankedPageSpec | backend/app/routes/recommend.py:45-51 | A page of the ranking: its members come from the scores, it is non-empty iff within the page count, and it is ordered by score, by date, or kept in input order for "salary" |
| ResumeParser.ExtractTextFromPdf | backend/app/services/resume_parser.py:16-21 | The loop concatenates the pages' texts in order, a page without text adding nothing |
| ResumeParser.PdfPageAt | backend/app/services/resume_parser.py:19-20 | Each page's text occurs in the document text right after the texts of the pages before it |
| ResumeParser.ExtractTextFromDocx | backend/app/services/resume_parser.py:23-28 | The loop collects the paragraphs and joins them with newlines |
| ResumeParser.DocxLinesRoundTrip | backend/app/services/resume_parser.py:23-28 | Splitting the document text on newlines gives back the paragraphs when none holds a newline |
| ResumeParser.EmailAt | backend/app/services/resume_parser.py:43 | An email match at a position ends after it and within the text |
| ResumeParser.EmailAtSpec | backend/app/services/resume_parser.py:43 | A match of the email pattern at a position exists iff one is found there, and the one found is the longest |
| ResumeParser.FirstEmail | backend/app/services/resume_parser.py:46 | The search returns a start where the email pattern matches, with no match at any earlier start, or no start at all |
| ResumeParser.EmailSpec | backend/app/services/resume_parser.py:43-48 | The email is empty iff nothing in the text matches the pattern; otherwise it is the leftmost, longest match |
| ResumeParser.PhoneAt | backend/app/services/resume_parser.py:44 | A phone match spans 10 to 14 characters |
| ResumeParser.FirstPhone | backend/app/services/resume_parser.py:50 | The search returns the leftmost start where the phone pattern matches, or none |
| ResumeParser.PhoneAtDigits | backend/app/services/resume_parser.py:44 | Every phone match holds exactly ten digits |
| ResumeParser.TenDigitsMatch | backend/app/services/resume_parser.py:44 | Ten digits in a row match whole at their start |
| ResumeParser.PhoneSpec | backend/app/services/resume_parser.py:44-52 | The phone is empty iff nothing matches; otherwise it is a match of 10 to 14 characters holding ten digits |
| ResumeParser.LocationAt | backend/app/services/resume_parser.py:81 | A location match at a position ends after it and within the text |
| ResumeParser.FirstLocation | backend/app/services/resume_parser.py:82 | The search returns the leftmost start where the location pattern matches, or none |
| ResumeParser.LocationAtShape | backend/app/services/resume_parser.py:81 | A location match lies between word boundaries, starts with a capital then a small letter, holds a comma and ends in two capitals |
| ResumeParser.LocationExamples | backend/app/services/resume_parser.py:79-80 | "New York, NY" and "London, UK" match whole |
| ResumeParser.ScanEntities | backend/app/services/resume_parser.py:55-67 | The entity loop sets the name from the first person entity holding a space and shorter than 30, and the location from the first place entity |
| ResumeParser.FirstTextSpec | backend/app/services/resume_parser.py:59-67 | A field filled by the loop is empty iff no entity is accepted, and otherwise is the first accepted entity's text |
| ResumeParser.NonBlank | backend/app/services/resume_parser.py:72 | The stripped non-blank lines are never empty and never more than the lines |
| ResumeParser.FallbackName | backend/app/services/resume_parser.py:70-76 | The fallback loop picks the first of the first ten non-blank lines that looks like a name, or nothing |
| ResumeParser.FirstNameLineSpec | backend/app/services/resume_parser.py:73-76 | The fallback name is empty iff no candidate passes the tests; otherwise it is a passing candidate and none before it passes |
| ResumeParser.Title | backend/app/services/resume_parser.py:118 | Title-casing keeps the length |
| ResumeParser.TitleIsTitle | backend/app/services/resume_parser.py:118 | A title-cased text with a letter passes the title test |
| ResumeParser.TitleIdempotent | backend/app/services/resume_parser.py:118 | Title-casing twice changes nothing |
| ResumeParser.ExtractSkills | backend/app/services/resume_parser.py:100-120 | The loop collects the title-cased vocabulary skills whose pattern matches the lowercased text |
| ResumeParser.SkillsInSpec | backend/app/services/resume_parser.py:100-120 | A skill is reported iff some vocabulary entry's pattern matches and it is that entry title-cased; every reported skill is title case |
| ResumeParser.NodePattern | backend/app/services/resume_parser.py:112-113 | "node.js" is found exactly where the word "node" is |
| ResumeParser.JavaWordInJavaScript | backend/app/services/resume_parser.py:114-115 | "java script" holds "java" as a whole word |
| ResumeParser.JavaScriptIsNotJava | backend/app/services/resume_parser.py:114-115 | The look-ahead rejects "java script", so Java is not reported |
| ResumeParser.TitleExamples | backend/app/services/resume_parser.py:118 | Skills are reported as "Fastapi", "Node.Js" and "C++" |
| ResumeParser.SplitSections | backend/app/services/resume_parser.py:122-152 | The section loop builds the three lists the state machine defines |
| ResumeParser.SectionsRecordContent | backend/app/services/resume_parser.py:126-152 | Only non-blank stripped content lines are recorded; headers and blank lines never are |
| ResumeParser.NoHeaderNoSections | backend/app/services/resume_parser.py:124-152 | Without a header line nothing is recorded: lines before the first header are dropped |
| ResumeParser.ClassifySpec | backend/app/services/resume_parser.py:133-145 | A line is a header iff it is shorter than 30 and has a section keyword, looked for in the order experience, education, certifications |
| ResumeParser.LongExperienceLineIsContent | backend/app/services/resume_parser.py:134-137 | A line of 30 or more characters mentioning experience is content, even when it also mentions education |
| ResumeParser.ParseResumeText | backend/app/services/resume_parser.py:30-159 | The parser returns the fields the model defines: email, phone, name, location, skills and the three sections |
| ResumeParser.ParseSections | backend/app/services/resume_parser.py:154-157 | Experience keeps the first 20 recorded lines and education the first 10; certifications are kept whole; every kept line is recorded content |
| ResumeRoutes.LastIndex | backend/app/routes/resume.py:21 | The index of the last occurrence of the character, or -1 when it does not occur |
| ResumeRoutes.SplitExt | backend/app/routes/resume.py:21 | Splitting a path gives a root and an extension that concatenate back to it |
| ResumeRoutes.SplitExtShape | backend/app/routes/resume.py:21 | An extension is empty or a dot followed by neither a dot nor a slash |
| ResumeRoutes.UpperCaseExtensionAccepted | backend/app/routes/resume.py:20-26 | The extension is compared case-insensitively: "cv.PDF" is accepted |
| ResumeRoutes.LastExtensionCounts | backend/app/routes/resume.py:20-26 | Only the last extension counts: "cv.pdf.exe" is refused |
| ResumeRoutes.DotFileRefused | backend/app/routes/resume.py:20-26 | ".pdf" alone has no extension and is refused |
| ResumeRoutes.UploadKeepsExtension | backend/app/routes/resume.py:35-38 | The stored name is the uuid followed by the uploaded file's extension |
| ResumeRoutes.UploadSpec | backend/app/routes/resume.py:28-47 | An upload succeeds iff its extension is allowed and the file is written; then it is stored under "uploads/" with the original extension, which is still allowed |
| ResumeRoutes.ParseDispatch | backend/app/routes/resume.py:49-71 | A missing file gives 404; an existing file whose readers succeed parses iff its extension is allowed, and otherwise gives 500 |
| ResumeRoutes.ParseReaders | backend/app/routes/resume.py:57-66 | ".pdf" files go to the PDF reader and ".docx" or ".doc" files to the DOCX reader; a reader failure gives 500 |
| ResumeRoutes.UploadThenParse | backend/app/routes/resume.py:28-71 | A path the upload route returned is never refused for its format by the parse route |
| ResumeRoutes.FindResume | backend/app/routes/resume.py:88 | The index of the first resume of the user, with none of the user's before it, or -1 when the user has none |
| ResumeRoutes.SaveSpec | backend/app/routes/resume.py:77-107 | After a save the user has exactly one resume, holding the request's fields and created now; an existing one keeps its id, a first one gets a fresh id; other users' resumes are untouched |
| ResumeRoutes.SaveIdempotent | backend/app/routes/resume.py:77-107 | Saving the same request twice at the same instant leaves what one save leaves |
| ResumeRoutes.ResumeStore.constructor | backend/app/routes/resume.py:77-107 | The resumes collection starts empty, with one resume per user |
| ResumeRoutes.ResumeStore.SaveResume | backend/app/routes/resume.py:77-107 | The collection is updated in place or extended as a save defines, keeps one resume per user, and the saved document is returned |
| JobTracking.FindEntry | backend/app/routes/job_tracking.py:14 | The index of the first entry of the pair, with none before it, or -1 iff the pair has no entry |
| JobTracking.StatusOf | backend/app/routes/job_tracking.py:91-97 | The status is absent iff the pair has no entry |
| JobTracking.FoundIsOnly | backend/app/routes/job_tracking.py:14-20 | Under one entry per pair, the entry found is the only one for the pair |
| JobTracking.UpsertSpec | backend/app/routes/job_tracking.py:11-30 | After an upsert the pair's entry carries the new status, data and update time; an existing one keeps its id and creation time, a new one gets a fresh id and is created now; other pairs' entries are untouched |
| JobTracking.UpsertPreservesWellFormed | backend/app/routes/job_tracking.py:11-30 | An upsert keeps one entry per pair and distinct, fresh ids |
| JobTracking.StatusAfterUpsert | backend/app/routes/job_tracking.py:11-30 | Right after an upsert the pair's status is the new one, and every other pair's is unchanged |
| JobTracking.SelectedMembers | backend/app/routes/job_tracking.py:66-68 | The listing query selects exactly the user's entries with that status, or all of them when the status is empty |
| JobTracking.SaveThenApplied | backend/app/routes/job_tracking.py:32-46 | Saving a job and then marking it applied moves it from the "saved" listing to the "applied" one |
| JobTracking.ListCounts | backend/app/routes/job_tracking.py:56-89 | A listing fails iff page or limit is below one; otherwise it reports the number selected and its page count, holds at most `limit` items, and is non-empty iff within the page count |
| JobTracking.ListedItems | backend/app/routes/job_tracking.py:75-81 | Each listed item is a selected entry's job data tagged with that entry's id, status and update time |
| JobTracking.ListedNewestFirst | backend/app/routes/job_tracking.py:71 | Listed items come most recently updated first |
| JobTracking.TrackingTable.constructor | backend/app/routes/job_tracking.py:12 | The tracking collection starts empty and well formed |
| JobTracking.TrackingTable.UpsertJobStatus | backend/app/routes/job_tracking.py:11-30 | The pair's entry is updated in place or a new entry appended, as an upsert defines, and one entry per pair is kept |
| JobTracking.TrackingTable.SaveJob | backend/app/routes/job_tracking.py:32-38 | Upserts the pair with status "saved" |
| JobTracking.TrackingTable.MarkApplied | backend/app/routes/job_tracking.py:40-46 | Upserts the pair with status "applied" |
| JobTracking.TrackingTable.MarkNotInterested | backend/app/routes/job_tracking.py:48-54 | Upserts the pair with status "not_interested" |
| JobTracking.TrackingTable.ListTrackedJobs | backend/app/routes/job_tracking.py:56-89 | The loop builds one tagged item per entry of the page, as the listing defines |
| JobTracking.TrackingTable.GetJobStatus | backend/app/routes/job_tracking.py:91-97 | Returns the pair's stored status, or none |
| JobTracking.ListedUnderNewStatus | backend/app/routes/job_tracking.py:11-30 | Right after an upsert the user's listing for the new status selects the pair's entry and a listing for any other status does not |
| Dashboard.Completion | backend/app/routes/dashboard.py:52-72 | Profile completion is at most 100, is 100 iff a resume with skills and experience, some tracking and some cached job all exist, and is at most 30 without a resume |
| Dashboard.ActivityOf | backend/app/routes/dashboard.py:86-95 | A formatted entry carries the entry's job id, status and update time, with "Unknown Title" and "Unknown Company" when the job data lacks them |
| Dashboard.Activities | backend/app/routes/dashboard.py:84-96 | One formatted item per entry |
| Dashboard.FormatActivity | backend/app/routes/dashboard.py:84-96 | The loop formats each entry in order |
| Dashboard.GetDashboardSummary | backend/app/routes/dashboard.py:21-114 | The summary holds the four counts, the profile with its step-by-step completion, and the three most recent saved and applied jobs, as the summary defines |
| Dashboard.CapNeverBinds | backend/app/routes/dashboard.py:52-72 | The five steps add up to exactly 100, so the cap never lowers the sum of the earned points |
| Dashboard.NoResumeProfile | backend/app/routes/dashboard.py:40-72 | Without a resume the profile shows no skills and no experience, and completion is at most 30 |
| Dashboard.FullCompletion | backend/app/routes/dashboard.py:52-72 | Completion is 100 iff there is a resume with skills and experience, some tracking and some cached job |
| Dashboard.CountWithSpec | backend/app/routes/dashboard.py:36-38 | A tracking count is positive iff the user tracks a job with that status, and never exceeds the number of entries |
| Dashboard.RecentSpec | backend/app/routes/dashboard.py:76-81 | The recent list holds at most three of the user's entries with the status, newest first; it holds all when there are at most three, and any entry left out was updated no later than the last one shown |
| Dashboard.ActivitiesSpec | backend/app/routes/dashboard.py:84-96 | Each activity item formats the entry in its place |
| Dashboard.IndexOfSkill | backend/app/routes/dashboard.py:156 | The index of the counter entry for a skill, with none before it, or -1 iff the skill has no entry |
| Dashboard.CountSkills | backend/app/routes/dashboard.py:149-156 | The inner loop adds one to the count of each common skill found in one job's text |
| Dashboard.MissingSkills | backend/app/routes/dashboard.py:163-168 | The loop collects the recommended skills the user's lowercased skills lack, in order |
| Dashboard.GetSkillAnalytics | backend/app/routes/dashboard.py:120-178 | The outer loop counts the sampled jobs, then the top ten and the missing skills are built, or the request fails, as the analytics define |
| Dashboard.CommonSkillsDistinct | backend/app/routes/dashboard.py:141 | The thirty common skills are distinct |
| Dashboard.IncrementFreq | backend/app/routes/dashboard.py:156 | Incrementing a skill adds one to its count and leaves every other count alone |
| Dashboard.IncrementShape | backend/app/routes/dashboard.py:156 | Incrementing a common skill keeps the counter free of repeated skills, with only counted common skills |
| Dashboard.CountJobFreq | backend/app/routes/dashboard.py:149-156 | One job adds one to the count of each distinct skill found in its text |
| Dashboard.CountJobShape | backend/app/routes/dashboard.py:149-156 | Counting a job keeps the counter free of repeated skills, with only counted common skills |
| Dashboard.TallyFreq | backend/app/routes/dashboard.py:146-156 | A common skill's count is the number of sampled jobs whose text contains it; other skills are never counted |
| Dashboard.EntryFreq | backend/app/routes/dashboard.py:156 | An entry's frequency is its skill's count |
| Dashboard.TallySpec | backend/app/routes/dashboard.py:146-156 | Each counter entry is a common skill found in as many jobs as its frequency, at least one, and every common skill found somewhere has an entry |
| Dashboard.WithKeyPrefix | backend/app/routes/dashboard.py:158 | The entries with a given count in a prefix come first among those in the whole |
| Dashboard.MostCommonSpec | backend/app/routes/dashboard.py:158 | At most ten counter entries, most frequent first; an entry left out is no more frequent than the tenth, and entries of equal count keep counter order |
| Dashboard.Names | backend/app/routes/dashboard.py:166-168 | One name per recommended item |
| Dashboard.MissingMembers | backend/app/routes/dashboard.py:163-168 | A skill is missing iff it is recommended and its lowercase form is not among the user's lowercased skills |
| Dashboard.MissingInOrder | backend/app/routes/dashboard.py:166-168 | The missing skills keep the recommended order |
| Dashboard.SkillAnalyticsSpec | backend/app/routes/dashboard.py:120-178 | The request fails iff a sampled job lacks a string description or title; otherwise at most ten items are recommended, each a common skill with its number of sampled jobs between 1 and 50, every missing skill is recommended, and the top user skills are the first ten of the resume's skills (all of them when fewer) |
| Dashboard.SymbolSkillNeedsWordCharAfter | backend/app/routes/dashboard.py:151 | "c++" ends in a non-word character, so its pattern matches only when a word character follows |

## Left out

- The front end apart from `frontend/middleware.ts`: React pages, components, cookie and local-storage state and the axios clients are user interface and hold no logic of the core.
- HTTP requests, RSS parsing with `ElementTree` and HTML parsing with `BeautifulSoup`: the model takes the parsed feed items, table rows and JSON replies as given records, and a failed request or parse as a distinct `Feed` or reply value.
- Date parsing (`strptime` of RSS `pubDate`) and clocks: parsed dates and the current time are parameters. Each operation reads the clock once, so the per-job `utcnow()` calls of `backend/app/routes/jobs.py` share one instant.
- Concurrency: the four adapters of `get_hybrid_jobs` run under `asyncio.gather`; the model takes their four outcomes in the fixed order and does not capture the cache races concurrent requests allow.
- Foreign algorithms are parameters: fuzzywuzzy `partial_ratio`, MD5, Python `hash()`, `uuid4`, Mongo `ObjectId`s, spaCy entities, pdfplumber and python-docx text extraction.
- Floating point: scores, coverages and priorities are exact rationals and experience is counted in tenths of a year. Where the source's float rounding differs (for example `int((29/100)*100)` is 28 in floats, 29 exactly), the model gives the exact value.
- Case folding, `istitle()`, `title()`, `\w`, `\s` and `\d` are modelled on ASCII letters and digits only; non-ASCII text is treated as neither letter nor digit.
- Credentials and wiring: `auth.py` (bcrypt and JWT), settings, the Mongo connection, `main.py` router wiring and `routes/skills.py`; the caller's identity is a parameter.
- Job CRUD handlers (`backend/app/routes/jobs.py:136-183`) and the `/test-api` route (`backend/app/routes/jobs.py:18-30`): thin database and network wrappers.
- Debug and verify scripts that drive a live server; `backend/debug_experience.py` is a stale copy of the years heuristic the application never calls.
- Two script expectations are not encoded because the code disagrees with them: `backend/verify_parser.py:48` expects "FastAPI" where the parser title-cases to "Fastapi", and `backend/verify_tracking.py:54,81` read "saved"/"applied" keys that the tracking list does not return.
- A `None` job description makes `calculate_match_score` raise a `TypeError`; the matching engine requires a string title and description instead, and the recommender and the dashboard, whose catch-all handlers turn that error into a 500, return their failure result (`ServerError`, `SkillsFailed`) when a read job lacks one.
- Mongo collections are sequences in natural (insertion) order; query projections, indexes and response-model re-validation by pydantic are not modelled, and the detail strings of 500 responses are not modelled beyond the status.
- `list(set(...))` results and dictionary iteration over counters are modelled as sets or with only their membership and distinctness specified, because their order in the source depends on hashing; likewise the order of the allowed extensions in the 400 detail of `upload_resume`.
- An upload whose filename is `None` is not modelled; filenames are strings.
- Printing and logging are left out.
- JobTracking.ListCounts: the handler does not validate `page` or `limit`; a page below 1 (a negative skip) and a limit below 1 (a division by zero, or Mongo's negative-limit semantics) are modelled together as one failure result, `ListFailed`.
- SkillExtraction.ExtractionExampleFinds: proves that the five names the test expects are extracted from its sentence, not that nothing else is.
- JobTracking.ByUpdate and Dashboard.Recent: entries updated at the same instant stay in collection order, whereas Mongo's `sort("updated_at", -1)` guarantees no order among ties; the model fixes one of the orders Mongo may return.
