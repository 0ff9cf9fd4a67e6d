# Naver blog pipeline: a verified model of its deterministic core

The repository is a Korean blogging assistant in five front ends: a Flask web app (`web_app.py`), a tkinter desktop app (`desktop_gui.py`), two Streamlit apps (`gui_app.py`, `gui_app_new.py`), a console script (`blogtitle.py`) and a console analyser (`NAVER_BLOG_SERACH.py`). Each one searches Naver's blog API for a keyword and cleans the returned snippets into title and description columns. It then asks an OpenAI model for an analysis, new titles and an article. Finally it asks the image API for illustrations.

This project models the deterministic code around those calls and proves what it does. Every network call is a parameter of the model: an oracle that returns text or a URL, or `None` when the call raises.

| module (file) | what it models |
|---|---|
| `Text` (text.dfy) | the Python string operations the core relies on: `strip`, `lower`, `in`, `find`, `replace`, `split`, `join`, `count`, `str(n)`, slicing |
| `ReplaceCleaner` (replace_cleaner.dfy) | `clean_html_tags` as a `str.replace` chain (blogtitle.py, gui_app.py, NAVER_BLOG_SERACH.py) |
| `TagStripper` (tag_stripper.dfy) | `clean_html_tags` as `re.sub('<.*?>', '', text)` (web_app.py, desktop_gui.py, gui_app_new.py) |
| `Extraction` (extraction.dfy) | `extract_blog_data` in its keep-all and filtering forms, and `extract_blog_titles` |
| `TitleStats` (title_stats.dfy) | `analyze_title_patterns`: the count, the length histogram, five flag counters and the Hangul keyword counter |
| `EnvConfig` (env_config.dfy) | the `.env` readers of all six files, including the environment-first reader of web_app.py |
| `Numbered` (numbered.dfy) | the `N.` enumeration and numbered-line parsing that several prompts share |
| `TitleParsing` (title_parsing.dfy) | the title extraction and fallback padding of `/api/generate_titles`, the legacy route, and the desktop title parser |
| `ImagePrompts` (image_prompts.dfy) | image-prompt parsing, backup prompts, the desktop country scan, and the two image-batch policies |
| `Seo` (seo.dfy) | `_analyze_seo_content` and the length prologue of `generate_blog_content` |
| `SessionStore` (session_store.dfy) | `temp_results` as a class holding a map plus its insertion order, with every `/api/*` and legacy route that reads or writes it |
| `DesktopWorkspace` (desktop_workspace.dfy) | the fields of `BlogAnalyzerApp` and the methods that update them, plus `create_blog_folder`'s name |
| `HtmlConverter` (html_converter.dfy) | the desktop `convert_to_html` line machine |
| `NaverConsole` (naver_console.dfy) | `create_blog_analysis_prompt` and the menu replies of `main` |
| `NumberInput` (number_input.dfy) | `get_number_input`'s re-prompting loop |
| `GuiAnalysis` (gui_analysis.dfy) | the guards of gui_app.py's `analyze_with_gpt` |
| `WebDownload` (web_download.dfy) | the archive name of `/api/download_images` |
| `TrendHours` (trend_hours.dfy) | the hour-of-day tables of the trend fallbacks |

Facts about the code that a reader might not expect:

- The replacement cleaner `clean_html_tags` is not idempotent: `&amp;lt;` cleans to `&lt;`, and cleaning that again gives `<` (ReplaceCleaner.NotIdempotent). The regex cleaner is idempotent (TagStripper.StripTagsIdempotent).
- The web SEO analyzer gives 18 + 20 + 20 = 58 points to an article of 6000 characters with six keyword occurrences and no bold markup, paragraph breaks or list markers (Seo.MarkerlessScore).
- A failed web stage leaves its session unchanged. The desktop `run_analysis` assigns each field as soon as its step returns, so a later failure keeps the earlier steps' results (DesktopWorkspace.Workspace.RunAnalysis).
- In web_app.py a non-empty process-environment value wins, and in the file the first non-empty value of a key wins. The other readers keep the last value (EnvConfig.FirstNonEmptyWins, EnvConfig.EnvMapLastWins).
- The legacy `/generate-blog` and `/generate-images` routes take the keyword from the first session in dict order, not from the session the title came from.

## Model

| member | source | states |
|---|---|---|
| Text.Lower | web_app.py:751-752 | `.lower()` keeps the length and lowers each character on its own (ASCII case folding) |
| Text.LowerAppend | web_app.py:751-752 | lowering distributes over concatenation |
| Text.LStrip | web_app.py:1217 | `lstrip()` leaves no leading whitespace and returns a suffix of its input |
| Text.LStripDropsSpace | web_app.py:1217 | what `lstrip()` drops is all whitespace |
| Text.RStrip | web_app.py:1217 | `rstrip()` leaves no trailing whitespace, returns a prefix, and drops only whitespace |
| Text.Strip | blogtitle.py:78 | `strip()` leaves no whitespace at either end, never lengthens, and leaves stripped text as it is |
| Text.StripSlice | blogtitle.py:78 | `strip()` returns a contiguous slice of its input |
| Text.StripBothEnds | blogtitle.py:78 | `strip()` is `rstrip()` after `lstrip()` |
| Text.LStripAllSpace | blogtitle.py:244-247 | a blank reply strips to nothing from the left |
| Text.StripEmpty | blogtitle.py:244-247 | a string strips to "" exactly when it is all whitespace |
| Text.ContainsAt | desktop_gui.py:815 | an occurrence at a position makes `sub in s` true |
| Text.ContainsWitness | desktop_gui.py:815 | `sub in s` yields a position of sub |
| Text.ContainsMiddle | NAVER_BLOG_SERACH.py:126-204 | a concatenation contains each middle part |
| Text.ContainsBoth | desktop_gui.py:1524-1529 | a five-part concatenation contains its second and fourth parts |
| Text.ContainsSingle | desktop_gui.py:1540 | a one-character `in` test is character membership |
| Text.ReplaceAbsent | blogtitle.py:75-77 | `replace` leaves a string without the pattern unchanged |
| Text.Split | web_app.py:1217 | `split('\n')` gives at least one piece and no piece holds the separator |
| Text.JoinSplit | web_app.py:1217 | joining the pieces of `split(c)` with c gives the string back |
| Text.SplitNoSeparator | web_app.py:1217 | a string without the separator splits into itself |
| Text.SplitSeparated | web_app.py:1217 | splitting `a + c + rest` gives a, then the pieces of rest |
| Text.SplitJoin | NAVER_BLOG_SERACH.py:124 | splitting a join whose parts lack the separator gives the parts back |
| Text.Find | desktop_gui.py:816 | `find` returns -1 exactly when sub is absent, otherwise a position where sub occurs |
| Text.CountOccurrences | web_app.py:514 | `count(sub)` of a non-empty sub is at most the length |
| Text.CountZeroIffAbsent | web_app.py:514 | the count is zero exactly when the substring is absent |
| Text.WordCount | web_app.py:484 | `len(content.split())` is zero exactly for all-whitespace text and never exceeds the length |
| Text.NatToString | NAVER_BLOG_SERACH.py:124 | `str(n)` is a non-empty run of digits |
| Text.Somes | web_app.py:640-660 | the present results, in order, never more than were asked for |
| Text.SomesMember | web_app.py:640-660 | a value is collected exactly when some result holds it |
| Text.SomesAll | web_app.py:640-660 | when every result is present, all are collected in order |
| Text.PrefixSnoc | web_app.py:1217 | the next prefix is the prefix and the next element |
| Text.SliceTo | web_app.py:1268 | `s[:n]` has length min(n, len) for n ≥ 0, counts from the end for n < 0, and is a prefix |
| Numbered.DigitRun | web_app.py:726 | the leading run of `\d` is all digits and is maximal |
| Numbered.StripNumberDot | web_app.py:727 | `re.sub(r'^\d+\.\s*', '', s)` changes only a line that starts with digits and a dot, and then removes at least two characters |
| Numbered.MatchEnumerated | web_app.py:1222 | `re.match(r'^\d+[\.\)\s]\s*(.+)')` matches only digit-led lines and captures a non-empty group |
| Numbered.DigitRunOfDigits | web_app.py:726 | the digit run of digits followed by a non-digit is exactly those digits |
| Numbered.LStripSpaceThen | web_app.py:727 | one extra leading space does not change `lstrip()` |
| Numbered.EnumeratedShape | NAVER_BLOG_SERACH.py:124 | in `f"{i+1}. {title}"` the digits end at the dot and the title follows one space later |
| Numbered.StripNumberDotEnumerated | web_app.py:727 | removing `^\d+\.\s*` from `f"{i+1}. {title}"` gives the title back |
| Numbered.StripNumberDotShape | web_app.py:727 | removing `^\d+\.\s*` from `digits + "." + t` gives `t.lstrip()` |
| Numbered.DotShape | web_app.py:726 | in `digits + "." + t` the digit run ends at the dot and t follows it |
| Numbered.MatchEnumeratedLine | web_app.py:1222-1224 | the title pattern reads `f"{i+1}. {title}"` back to the title |
| Numbered.MatchEnumeratedShape | web_app.py:1222-1224 | after `digits + "."` the pattern captures the rest without its leading whitespace |
| Numbered.StripNumberDotPlain | web_app.py:726-727 | a line that does not start with a digit matches neither pattern and is left as it is |
| Numbered.Enumerate | NAVER_BLOG_SERACH.py:124 | one numbered line per title |
| Numbered.EnumerateLineStripped | NAVER_BLOG_SERACH.py:124 | a numbered one-line title is a digit-led line with no surrounding whitespace and no newline |
| TitleParsing.NonStarRun | web_app.py:1227-1228 | the run `[^*]+` is star-free and maximal |
| TitleParsing.Unwrap | web_app.py:1227-1228 | `re.sub(r'\*{m}([^*]+)\*{m}', r'\1', s)` never lengthens the text |
| TitleParsing.UnwrapStarFree | web_app.py:1227-1228 | star-free text is left unchanged by either substitution |
| TitleParsing.UnwrapBoldNoDouble | web_app.py:1227 | text with no `**` is left unchanged by the bold substitution |
| TitleParsing.StripMarkdownStarFree | web_app.py:1227-1228 | the markdown pass leaves star-free text unchanged |
| TitleParsing.UnwrapBoldWrapped | web_app.py:1227 | `**x**` becomes x |
| TitleParsing.UnwrapItalicWrapped | web_app.py:1228 | `*x*` becomes x |
| TitleParsing.ItalicNoDoubleStar | web_app.py:1227-1228 | `*x*` has no `**`, so the bold pass leaves it alone |
| TitleParsing.StripMarkdownWrapped | web_app.py:1227-1228 | both `**x**` and `*x*` come back as x after the two passes |
| TitleParsing.NonStarRunPrefix | web_app.py:1227-1228 | the star-free run of `x + rest` is x when rest starts with a star |
| TitleParsing.ResponseLines | web_app.py:1217 | the kept lines are all non-empty |
| TitleParsing.StrippedLines | web_app.py:1217 | the loop computes `[line.strip() for line in text.split('\n') if line.strip()]` |
| TitleParsing.LineTitles | web_app.py:1219-1238 | one outcome per line |
| TitleParsing.GeneratedTitlesAcceptable | web_app.py:1231-1237 | every kept title is between 6 and 199 characters long and contains none of the twelve label markers |
| TitleParsing.ParseGeneratedTitles | web_app.py:1213-1238 | a blank answer gives no titles; otherwise the result is the titles of the stripped non-empty lines, each acceptable |
| TitleParsing.TitlesOfLines | web_app.py:1219-1238 | the loop keeps, in line order, the acceptable unwrapped group of each numbered line |
| TitleParsing.StripNoSurroundingSpace | web_app.py:1224 | `strip()` leaves a stripped title unchanged |
| TitleParsing.GeneratedTitleOfEnumerated | web_app.py:1222-1237 | `f"{i+1}. {t}"` reads back as t for an acceptable, star-free, stripped t |
| TitleParsing.ResponseLinesOfStripped | web_app.py:1217 | stripped non-empty lines are kept as they are |
| TitleParsing.GeneratedTitlesOfEnumerated | web_app.py:1219-1238 | numbered clean titles read back as the same list |
| TitleParsing.ExtractedTitlesOfEnumerated | web_app.py:1213-1238 | round trip: an answer listing clean titles as numbered lines yields exactly those titles |
| TitleParsing.Fallbacks | web_app.py:1247-1260 | there are twelve fallback titles |
| TitleParsing.SuffixesDistinct | web_app.py:1247-1260 | the twelve fallback suffixes differ pairwise |
| TitleParsing.FallbacksDistinct | web_app.py:1247-1260 | the twelve fallback titles differ pairwise for every keyword |
| TitleParsing.Fresh | web_app.py:1263-1264 | the fallbacks not yet extracted, never more than the fallbacks |
| TitleParsing.PadTitles | web_app.py:1243-1268 | the padding loop and the final cut compute the extracted titles plus the missing fallbacks, cut to n |
| TitleParsing.NotInPrefix | web_app.py:1263-1264 | in a duplicate-free list no element occurs before its own position |
| TitleParsing.PadStep | web_app.py:1263-1265 | one round of the padding loop keeps the closed form |
| TitleParsing.FreshSnoc | web_app.py:1263-1264 | one more fallback is appended exactly when it was not extracted |
| TitleParsing.PadStepFresh | web_app.py:1263-1265 | a fallback that is neither extracted nor earlier is appended while there is room |
| TitleParsing.Common | web_app.py:1263-1264 | the fallbacks already extracted |
| TitleParsing.FreshCommonCount | web_app.py:1263-1264 | every fallback is either fresh or already extracted |
| TitleParsing.CommonNoDuplicates | web_app.py:1263-1264 | the already-extracted fallbacks are duplicate-free |
| TitleParsing.DistinctIncluded | web_app.py:1263-1264 | a duplicate-free list drawn from the extracted titles is no longer than they are |
| TitleParsing.PadTitlesLength | web_app.py:1243-1268 | the answer never has more than n titles, has exactly n for 0 ≤ n ≤ 12, and starts with the extracted titles |
| TitleParsing.PadTitlesNoDuplicates | web_app.py:1263-1268 | padding a duplicate-free list keeps it duplicate-free |
| TitleParsing.FreshNoDuplicates | web_app.py:1263-1264 | the fresh fallbacks are duplicate-free |
| TitleParsing.LegacyTitle | web_app.py:1681-1687 | a kept legacy title is never empty |
| TitleParsing.LegacyTitles | web_app.py:1679-1687 | no kept legacy title is empty |
| TitleParsing.ParseLegacyTitles | web_app.py:1679-1687 | the loop keeps the `N.`-stripped form of each line longer than five characters that does not start with `#` |
| TitleParsing.LegacyTitleOfEnumerated | web_app.py:1681-1687 | `f"{i+1}. {t}"` reads back as t on the legacy route |
| TitleParsing.MarkedTitle | desktop_gui.py:815-818 | a marked line yields a non-empty stripped title |
| TitleParsing.PlainLines | desktop_gui.py:823-826 | the fallback shows only lines of the answer that start with neither `#` nor `*` |
| TitleParsing.ParseDesktopTitles | desktop_gui.py:809-826 | the listed titles are the marked titles, or the plain lines when there are none |
| TitleParsing.ExtractMarkedTitles | desktop_gui.py:813-820 | the loop collects the title of every marked line, in order |
| TitleParsing.MarkedTitlesStep | desktop_gui.py:814-820 | one more line adds its title when it has one |
| TitleParsing.SelectPlainLines | desktop_gui.py:823-826 | the fallback loop selects the plain lines |
| TitleParsing.MarkedTitleOfLabel | desktop_gui.py:815-818 | `**제목 N:** t` yields t |
| TitleParsing.LabelAfter | desktop_gui.py:815-818 | after a colon-free head starting with the marker, the text after the first `:**` is the title |
| TitleParsing.FindAfterColonFree | desktop_gui.py:816 | the first `:**` after a colon-free head is right after it |
| TitleParsing.MarkedTitleAt | desktop_gui.py:815-818 | a marked line whose text after the first `:**` is `" " + t` yields t |
| TitleParsing.StripSpaceThen | desktop_gui.py:817 | one leading space is stripped off a stripped title |
| TitleParsing.FindFirst | desktop_gui.py:816 | `find` returns a position no later than any occurrence |
| ImagePrompts.PromptOutcomes | web_app.py:723-729 | one outcome per answer line |
| ImagePrompts.ParseNumberedPrompts | web_app.py:722-729 | the parse of the answer's lines gives the prompts of its `N.` lines longer than the minimum, in line order |
| ImagePrompts.PromptsOfLines | desktop_gui.py:1507-1512 | the parsing loop collects each numbered line's stripped prompt when it is long enough |
| ImagePrompts.NumberedPromptsShape | web_app.py:726-729 | every parsed prompt is longer than the minimum and has no surrounding whitespace |
| ImagePrompts.NumberedPromptOfEnumerated | web_app.py:724-727 | `f"{i+1}. {p}"` reads back as p |
| ImagePrompts.NumberedPromptsOfEnumerated | web_app.py:722-729 | round trip: long enough one-line prompts written as `N. prompt` lines are read back exactly |
| ImagePrompts.TemplateParts | web_app.py:759-779 | each topic has four templates |
| ImagePrompts.Templates | web_app.py:759-779 | each topic fills four templates |
| ImagePrompts.BackupPromptsShape | web_app.py:742-779 | there are min(4, n) backup prompts and each mentions the keyword |
| ImagePrompts.ClassifyOrder | web_app.py:749-757 | person words win over nature words, and nature words over the product default |
| ImagePrompts.CreateImagePrompts | web_app.py:666-740 | the web prompts: the backups when the model call fails, otherwise the parsed prompts padded position by position from the backups and cut to n |
| ImagePrompts.PaddedShape | web_app.py:731-736 | padding keeps the parsed prompts first and continues with the backup of the same position |
| ImagePrompts.WebImagePromptsCount | web_app.py:666-740 | for 0 ≤ n ≤ 4 there are exactly n web prompts |
| ImagePrompts.WebImagePromptsOrigin | web_app.py:719-740 | every web prompt is a parsed line longer than 20 characters or mentions the keyword |
| ImagePrompts.MentionedCountry | desktop_gui.py:1453-1460 | the country scan returns the first listed country mentioned in the content or title |
| ImagePrompts.ScanCountries | desktop_gui.py:1457-1460 | the loop stops at the first mentioned country |
| ImagePrompts.FirstMentionedSpec | desktop_gui.py:1457-1460 | none is found exactly when no country is mentioned; otherwise the one found is mentioned and none before it is |
| ImagePrompts.DesktopFallback | desktop_gui.py:1516-1529 | there are four fallback prompts |
| ImagePrompts.DesktopFallbackMentions | desktop_gui.py:1519-1529 | each fallback mentions the keyword and the style phrase of the mentioned country |
| ImagePrompts.CreateDesktopImagePrompts | desktop_gui.py:1444-1529 | the desktop prompts: the four fallbacks when the model call fails, and the fallbacks without a country when the article has no content (`content.lower()` raises first); otherwise the non-empty numbered prompts, at most four |
| ImagePrompts.DesktopImagePromptsShape | desktop_gui.py:1453-1529 | there are at most four desktop prompts, each non-empty; an article without content gets the fallbacks without a country |
| ImagePrompts.SkipBatch | web_app.py:640-662 | the web batch never has more records than prompts |
| ImagePrompts.GenerateImagesSkipping | web_app.py:638-662 | the web loop over the first n prompts skips failed prompts and records the others with their 1-based position |
| ImagePrompts.GenerateDallEImages | web_app.py:625-665 | the web images are the skipping batch over the first n prompts of create_image_prompts |
| ImagePrompts.WebImagesBound | web_app.py:625-665 | at most n records, each indexing one of the first n positions, in increasing order |
| ImagePrompts.SkipBatchRecords | web_app.py:640-657 | each record carries its prompt, the position of that prompt, and the URL the service gave for it |
| ImagePrompts.SkipBatchIncreasing | web_app.py:640-657 | record indices strictly increase |
| ImagePrompts.HasIndexSnoc | web_app.py:640-657 | one more record adds exactly its index |
| ImagePrompts.SkipBatchComplete | web_app.py:640-662 | a position has a record exactly when the service answered for it |
| ImagePrompts.GenerateImagesAll | desktop_gui.py:1600-1638 | the desktop loop returns every image when all calls succeed and an empty list as soon as one fails |
| ImagePrompts.BatchPolicies | desktop_gui.py:1600-1638 | the two batch policies agree when every call succeeds; after a failure the desktop batch is empty and the web batch is shorter than the prompt list |
| Seo.FrequencyPoints | web_app.py:491-493 | frequency points: none below five occurrences, otherwise three per occurrence up to 30 |
| Seo.DensityPoints | web_app.py:486-499 | 20 points for a density between 1.5% and 4%, 10 for any other positive density, none without words or keywords |
| Seo.LengthPoints | web_app.py:502-508 | length points, which are zero exactly below 1500 characters |
| Seo.MarkerPoints | web_app.py:511-516 | the structure criteria give at most 30 points |
| Seo.AnalyzeSeoContent | web_app.py:476-526 | the step-by-step score is the capped sum of the four criteria, returned with the counts |
| Seo.ScoreIsSum | web_app.py:490-525 | the criteria add up to at most 100, so the cap never changes the score |
| Seo.EmptyContentScoresZero | web_app.py:476-526 | empty content with a non-empty keyword scores 0 and counts nothing |
| Seo.EmptyKeywordCount | web_app.py:481 | an empty keyword is counted once per position, content length + 1 |
| Seo.MarkerlessScore | web_app.py:490-525 | a long article with six occurrences at the right density and no structure markers scores 58 |
| Seo.Clamp | web_app.py:351-367 | the length settings: a minimum of at least 7500, defaults when a conversion raises, and a keyword target of min_chars // 300, which is at least 25 |
| Seo.ClampKeepsSmallMaximum | web_app.py:354-363 | raising the minimum does not raise the maximum, so a small maximum ends below the minimum |
| NaverConsole.Template | NAVER_BLOG_SERACH.py:126-202 | a template exists exactly for the three analysis types and holds both the keyword and the title block |
| NaverConsole.AnalysisPrompt | NAVER_BLOG_SERACH.py:111-204 | a prompt is built exactly for the three analysis types; any other type raises |
| NaverConsole.RenderContains | NAVER_BLOG_SERACH.py:126-202 | a rendered template contains the text of each of its pieces |
| NaverConsole.PromptMentions | NAVER_BLOG_SERACH.py:124-204 | every prompt names the keyword and holds the whole numbered title block |
| NaverConsole.TitlesTextLines | NAVER_BLOG_SERACH.py:124 | the title block splits back into one `N. title` line per title |
| NaverConsole.SortMethod | NAVER_BLOG_SERACH.py:308-309 | the reply '2' selects accuracy order ("sim"); anything else selects date order |
| NaverConsole.AnalysisChoice | NAVER_BLOG_SERACH.py:328-336 | '4' skips the analysis, '2' and '3' select trend and seo, and anything else selects comprehensive |
| NaverConsole.MenuChoiceHasPrompt | NAVER_BLOG_SERACH.py:328-342 | every menu choice that is analysed has a prompt |
| NumberInput.ParseInt | blogtitle.py:250 | int() of a stripped reply: a digit string parses to its value, and only a digit or sign can start a number |
| NumberInput.DigitsValueOfNat | blogtitle.py:250 | a rendered natural number reads back as itself |
| NumberInput.ParseIntRoundTrip | blogtitle.py:250 | int() reads back every rendered integer, with or without a minus sign |
| NumberInput.Value | blogtitle.py:244-252 | an accepted reply gives the default or a number inside the bounds |
| NumberInput.GetNumberInput | blogtitle.py:239-256 | the prompt loop returns the answer of the first accepted reply, or nothing when the replies run out |
| NumberInput.AnswerFirstAccepted | blogtitle.py:243-256 | the answer is the value of the first accepted reply; every reply before it is asked again |
| NumberInput.AnswerNone | blogtitle.py:243-256 | without an accepted reply there is no answer |
| NumberInput.AnswerInRange | blogtitle.py:246-252 | every answer is the default or lies inside [min_val, max_val] |
| NumberInput.EmptyReplyDefault | blogtitle.py:244-247 | an all-whitespace first reply gives the default, even one outside the bounds |
| SessionStore.KeptColumns | web_app.py:1108-1125 | the stored columns are the kept (title, description) pairs, equally many of each |
| SessionStore.CollectResults | web_app.py:1588-1595 | the legacy search keeps one record per item, in order, with tags stripped from title and description |
| SessionStore.Latest | web_app.py:1623-1626 | the scan only picks a session that exists and qualifies |
| SessionStore.LatestSpec | web_app.py:1623-1626 | nothing is found exactly when no session qualifies; otherwise the found session has the latest timestamp and is the first among equally late ones |
| SessionStore.Store.constructor | web_app.py:1122 | the store starts empty |
| SessionStore.Store.Put | web_app.py:1122-1128 | assigning a session keeps the store valid; a new id goes last in iteration order and an existing id keeps its place |
| SessionStore.Store.ApiSearch | web_app.py:1084-1150 | a blank keyword or missing credentials gives 400, a failed or empty search 500, a reply without items 404; otherwise a new session holds the kept columns |
| SessionStore.Store.ApiAnalyze | web_app.py:1152-1184 | an unknown session gives 400, a legacy session without columns or a failed call 500; otherwise the analysis of its columns is stored with its type |
| SessionStore.Store.ApiGenerateTitles | web_app.py:1186-1283 | an unknown or unanalysed session gives 400 and a failed call 500; otherwise the parsed titles, padded and cut to n, are stored |
| SessionStore.Store.ApiGenerateBlog | web_app.py:1285-1343 | an unknown session or an empty title gives 400; otherwise the article is stored and answered with its SEO report |
| SessionStore.Store.ApiGenerateImages | web_app.py:1345-1381 | an unknown session or one without an article gives 400 and a missing key 500; otherwise the images of the article's title are stored |
| SessionStore.Store.ResultsFor | web_app.py:1545-1567 | an unknown session gives 400; otherwise the keyword, the found titles (empty for a legacy session), the analysis and the blog are answered, with an empty list for a stage that has not run |
| SessionStore.Store.LatestSession | web_app.py:1621-1626 | the loop over the store returns the session Latest picks |
| SessionStore.Store.LegacySearch | web_app.py:1569-1616 | a blank keyword or a reply without items gives 400 and a raising search 500; otherwise a new session holds one record per item |
| SessionStore.Store.LegacyAnalyze | web_app.py:1618-1651 | the latest session is analysed; no session gives 400, and a session without results or a failed call gives 500 |
| SessionStore.Store.LegacyGenerateTitles | web_app.py:1653-1700 | the latest analysed session gets the numbered lines of the answer; with no analysed session the reply is 400 |
| SessionStore.Store.LegacyGenerateBlog | web_app.py:1702-1740 | the first session in iteration order supplies keyword and analysis; a blank title or no keyword gives 400, and nothing is stored |
| SessionStore.Store.LegacyGenerateImages | web_app.py:1742-1784 | the images are stored in the first session in iteration order, and the keyword falls back to the title; a missing title or content gives 400 and a missing key 500 |
| DesktopWorkspace.WithoutChars | desktop_gui.py:1540 | removing a character class keeps exactly the characters of the input outside the class, and one character survives exactly when it is outside the class |
| DesktopWorkspace.WithoutCharsAppend | desktop_gui.py:1540 | the filter works character by character: filtering a concatenation filters each part in order, which with the one-character case fixes the result |
| DesktopWorkspace.SafeTitle | desktop_gui.py:1539-1542 | the folder stem is "untitled" or at most five stripped characters none of which Windows forbids |
| DesktopWorkspace.SafeTitleValue | desktop_gui.py:1539-1542 | the stem is "untitled" exactly when the first five characters are all forbidden or whitespace; otherwise it is those characters without the forbidden ones, stripped |
| DesktopWorkspace.CleanedAllSpace | desktop_gui.py:1540-1541 | what survives the filter is blank exactly when every character was forbidden or whitespace |
| DesktopWorkspace.StripSubsequence | desktop_gui.py:1540 | strip keeps only characters of its input |
| DesktopWorkspace.SafeTitleDropsSlash | desktop_gui.py:1540 | a forbidden character inside the stem is dropped and the rest closes up: "a/b" gives "ab" |
| DesktopWorkspace.SafeTitleOfPlain | desktop_gui.py:1539-1542 | a title whose first five characters are safe and unpadded keeps them as its stem |
| DesktopWorkspace.WithoutSafeChars | desktop_gui.py:1540 | removing absent characters changes nothing |
| DesktopWorkspace.StripUnchanged | desktop_gui.py:1540 | strip leaves an unpadded string as it is |
| DesktopWorkspace.Workspace.constructor | desktop_gui.py:31-53 | the stages start empty, with the credentials read from the .env file, or none when it is missing |
| DesktopWorkspace.Workspace.StartAnalysis | desktop_gui.py:692-715 | a blank keyword only warns and changes nothing; otherwise the analysis runs on the stripped keyword and leaves exactly the state `run_analysis` leaves (the search result, the kept titles and descriptions, the analysis), with the credentials and the shown titles unchanged |
| DesktopWorkspace.Workspace.RunAnalysis | desktop_gui.py:716-783 | missing credentials or a failed search change nothing; each later step's field is set as soon as it returns, so a later failure keeps the earlier results; the columns are the kept pairs of the items |
| DesktopWorkspace.Workspace.GenerateNewTitles | desktop_gui.py:784-852 | before an analysis nothing changes; otherwise the list box is refilled from the answer unless the call raised, and no other field changes |
| DesktopWorkspace.Workspace.GenerateBlogContent | desktop_gui.py:1030-1099 | a reply is remembered with the stripped keyword of the entry, including one whose content is None; a raising call changes nothing; no other field changes |
| DesktopWorkspace.Workspace.GenerateBlogImages | desktop_gui.py:1809-1820 | without an article nothing happens, existing images are shown again, and otherwise the automatic batch runs |
| DesktopWorkspace.Workspace.AutoGenerateBlogImages | desktop_gui.py:1754-1807 | only a non-empty batch is remembered, together with the folder it was saved in; otherwise nothing changes |
| DesktopWorkspace.RunBlogBatch | desktop_gui.py:1754-1774 | the prompts of the article, then the all-or-nothing batch, and no batch without prompts |
| DesktopWorkspace.SavedBatchComplete | desktop_gui.py:1600-1638 | a kept batch has one record per prompt, each with its 1-based position, and every call succeeded |
| ReplaceCleaner.CleanHtmlTags | blogtitle.py:71-78 | the cleaned snippet has no surrounding whitespace and is no longer than the replaced text |
| ReplaceCleaner.CleanChain | blogtitle.py:75-78 | the replacement table is the source's chain: bold removal, then the five entity decodings in order, then strip |
| ReplaceCleaner.ChainAbsent | gui_app.py:167-172 | a chain none of whose patterns occurs leaves the text alone |
| ReplaceCleaner.CleanIdentity | NAVER_BLOG_SERACH.py:82-89 | text without bold tags, ampersands or surrounding whitespace comes back unchanged |
| ReplaceCleaner.CleanOf | blogtitle.py:75-78 | text without `<` cleans to its entity decoding when that is unpadded |
| ReplaceCleaner.FirstPass | blogtitle.py:76-77 | `&amp;lt;` decodes to `&lt;` in one pass, because `&lt;` is decoded before `&amp;` |
| ReplaceCleaner.SecondPass | blogtitle.py:76 | `&lt;` decodes to `<` |
| ReplaceCleaner.NotIdempotent | blogtitle.py:71-78 | cleaning is not idempotent: cleaning `&amp;lt;` twice gives `<`, once gives `&lt;` |
| TagStripper.CloseAt | web_app.py:159 | the first `>` before any newline, or none when the line has no `>` |
| TagStripper.StripTags | web_app.py:157-160 | stripping tags never lengthens the text |
| TagStripper.UnclosedStaysUnclosed | desktop_gui.py:586-589 | a line without `>` keeps none after stripping |
| TagStripper.StripTagsTagFree | web_app.py:157-160 | the output holds nothing the pattern `<.*?>` matches |
| TagStripper.StripTagsFixesTagFree | gui_app_new.py:95-98 | text the pattern does not match comes back unchanged |
| TagStripper.StripTagsIdempotent | web_app.py:157-160 | stripping twice is stripping once |
| TagStripper.NoAngleUnchanged | desktop_gui.py:586-589 | text without `<` comes back unchanged |
| TagStripper.StripTagsKeepsNewlines | web_app.py:159 | no newline is removed, because `.` does not match one |
| Extraction.ExtractKeepAll | blogtitle.py:80-96 | no items give empty columns; an item lacking a key aborts (KeyError); otherwise one cleaned title and description per item, in order |
| Extraction.ExtractTitles | NAVER_BLOG_SERACH.py:91-109 | no items give no titles; an item without a title aborts; otherwise one cleaned title per item, in order |
| Extraction.Titled | web_app.py:172-174 | the filter keeps at most as many pairs as it is given |
| Extraction.TitledMembership | desktop_gui.py:604-606 | a pair is kept exactly when its title is non-empty and it was given |
| Extraction.KeptMembership | web_app.py:162-179 | a pair is extracted exactly when it is the cleaned pair of some item and its title is non-empty |
| Extraction.KeptCount | gui_app_new.py:108-115 | the number of extracted pairs is the number of pairs with a title |
| Extraction.KeptTitled | web_app.py:172-174 | every extracted title is non-empty |
| Extraction.KeptAllTitled | web_app.py:168-174 | when every pair has a title, all of them are kept in order |
| Extraction.ExtractFiltering | web_app.py:162-179 | no items give empty columns; otherwise the columns zip to exactly the kept pairs, equally long, every title non-empty |
| TitleStats.CountFlag | blogtitle.py:120-130 | a feature counter never exceeds the number of titles |
| TitleStats.HangulRun | blogtitle.py:133 | the leading Hangul run is all Hangul and is followed by a non-Hangul character or the end |
| TitleStats.AnalyzeTitlePatterns | blogtitle.py:98-136 | the two passes give the analysis of the titles: count, total length, histogram, the five flag counts and the keyword counter |
| TitleStats.AnalyzeTitlePatternsSinglePass | gui_app.py:190-223 | the single pass gives the same analysis as the two passes |
| TitleStats.AddToBucketLookup | blogtitle.py:117 | a dictionary increment adds one to its own bucket and leaves the others alone |
| TitleStats.AddToBucketTotal | blogtitle.py:117 | a dictionary increment adds one to the total |
| TitleStats.AddToBucketKeys | blogtitle.py:117 | a dictionary increment adds its key and no other |
| TitleStats.AddToBucketDistinct | blogtitle.py:117 | a dictionary increment keeps every key listed once |
| TitleStats.HistogramKeys | blogtitle.py:115-117 | the listed buckets are exactly the buckets of the titles |
| TitleStats.HistogramTotal | blogtitle.py:115-117 | the bucket counts add up to the number of titles |
| TitleStats.HistogramLookup | blogtitle.py:115-117 | each bucket holds the number of titles whose length falls in its ten-character range |
| TitleStats.HistogramDistinct | blogtitle.py:115-117 | each bucket is listed once |
| TitleStats.KeywordsWellFormed | blogtitle.py:133 | each keyword is a run of two or more Hangul syllables that occurs in the title |
| TitleStats.KeywordFrequencySound | blogtitle.py:133-134 | every counted word is a Hangul word of at least two syllables from some title |
| TitleStats.KeywordsAreMaximalRuns | blogtitle.py:133 | `re.findall(r'[가-힣]{2,}', title)` is exactly the maximal runs of two or more Hangul syllables, in the order they start |
| TitleStats.KeywordsMaximal | blogtitle.py:133 | every keyword is a whole maximal run: the characters on both sides of it, if any, are not Hangul syllables |
| TitleStats.KeywordsComplete | blogtitle.py:133 | every maximal run of two or more syllables is a keyword |
| TitleStats.KeywordFrequencyComplete | gui_app.py:219-220 | the counter holds every such run of every title, at least as often as it occurs in that title |
| EnvConfig.ParseLine | blogtitle.py:18-22 | a line gives an entry exactly when, stripped, it is non-blank, not a comment and holds `=`; the key holds no `=` |
| EnvConfig.FirstIndex | blogtitle.py:21 | split('=', 1) splits at the first `=` |
| EnvConfig.ParseLineStripped | blogtitle.py:19-22 | keys and values come out stripped |
| EnvConfig.ParseLineFormatted | blogtitle.py:18-22 | a `key=value` line reads back as (key, value) |
| EnvConfig.Entries | gui_app.py:94-100 | one parsed entry per line, in file order |
| EnvConfig.ReadEnvFile | gui_app_new.py:53-59 | the reading loop builds the dictionary of the file's entries |
| EnvConfig.FillKeys | gui_app.py:96-100 | a key is in the dictionary exactly when some line defines it |
| EnvConfig.FillLastWins | gui_app.py:96-100 | the last line defining a key gives its value |
| EnvConfig.EnvMapLastWins | desktop_gui.py:83-88 | for a file, the last line defining a key gives its value |
| EnvConfig.LoadStrict | blogtitle.py:11-43 | no file gives no credentials; otherwise all three when all are non-empty, else none |
| EnvConfig.LoadLenient | gui_app.py:91-106 | no file gives no credentials; otherwise whatever the three keys hold |
| EnvConfig.LoadNaverRequired | NAVER_BLOG_SERACH.py:8-39 | no file or a missing Naver pair gives no credentials; the OpenAI key is returned even when missing |
| EnvConfig.FirstNonEmpty | web_app.py:79-91 | the first non-empty value, or none when all are empty |
| EnvConfig.FirstNonEmptySnoc | web_app.py:79-91 | appending a value changes the first non-empty value only when there was none |
| EnvConfig.WebValueSnoc | web_app.py:79-91 | one more file value is taken only while the current value is missing or empty |
| EnvConfig.WebValueStep | web_app.py:79-91 | one line of the web loop updates each key's value as the specification function says |
| EnvConfig.LoadWeb | web_app.py:55-100 | the environment first; the file only when a value is missing or empty, and a file line sets a key only while its value is missing or empty |
| EnvConfig.EnvironmentWins | web_app.py:60-68 | a non-empty environment value is never replaced by the file |
| EnvConfig.FirstNonEmptyWins | web_app.py:79-91 | the web reader keeps the first non-empty file value, not the last |
| GuiAnalysis.AnalyzeWithGpt | gui_app.py:224-251 | the model is asked exactly when a key is set and there are titles; the key guard comes first, and a failed call is reported with its error |
| GuiAnalysis.GuardsIgnoreChat | gui_app.py:226-230 | when a guard fires, the model's reply makes no difference |
| GuiAnalysis.FailureDistinct | gui_app.py:250-251 | a failure report carries its own prefix and differs from both guard messages |
| WebDownload.SafeChars | web_app.py:1845 | the filter keeps exactly the letters, digits, spaces, hyphens and underscores of the keyword, and one character survives exactly when it is one of those |
| WebDownload.SafeCharsAppend | web_app.py:1845 | the generator keeps characters one at a time: filtering a concatenation filters each part in order |
| WebDownload.SafeKeyword | web_app.py:1844-1847 | the stem is non-empty, all safe and without trailing space; it is "generated_images" when every character of the keyword (or of "images") is unsafe or a space, and otherwise the safe characters with trailing spaces removed |
| WebDownload.SafeCharsBlank | web_app.py:1845-1847 | the safe characters rstrip to nothing exactly when every character is unsafe or a space |
| WebDownload.ZipFileName | web_app.py:1844-1848 | the archive name is the stem followed by `_images.zip` and holds no path separator |
| WebDownload.NameNoSeparator | web_app.py:1845-1848 | a safe stem with the suffix holds no `/` or `\` |
| WebDownload.SafeCharsOfSafe | web_app.py:1845 | an all-safe keyword passes the filter unchanged |
| WebDownload.SafeKeywordOfSafe | web_app.py:1845-1847 | a safe keyword without trailing space is its own stem |
| WebDownload.SafeKeywordIdempotent | web_app.py:1845-1847 | sanitising a stem again changes nothing |
| WebDownload.DefaultNames | web_app.py:1844-1848 | no keyword gives `images_images.zip`; a keyword without safe characters gives `generated_images_images.zip` |
| WebDownload.NoSafeChars | web_app.py:1845 | a keyword without safe characters filters to nothing |
| TrendHours.WebDayPart | web_app.py:1513-1521 | morning exactly for hours 6 to 11, afternoon exactly for 12 to 17, evening otherwise |
| TrendHours.FirstRange | desktop_gui.py:1854-1856 | the first range holding the hour, none holding it before; none when no range holds it |
| TrendHours.DesktopSlot | desktop_gui.py:1846-1858 | the desktop lookup always lands on one of the four table entries |
| TrendHours.RealtimeSlot | desktop_gui.py:1854-1858 | the loop returns the first range holding the hour, else the default range(12, 18) |
| TrendHours.FirstRangeAt | desktop_gui.py:1854-1856 | a range that holds the hour, with none before it, is the one found |
| TrendHours.DayPartsAgree | desktop_gui.py:1846-1856 | every clock hour lies in a desktop range, and that range corresponds to the web's part of the day; for hours 0-5 only through labelling the night range as evening, since the desktop has four lists to the web's three |
| TrendHours.NightHours | desktop_gui.py:1851 | hours 0-5 take the desktop's separate late-night list, while the web gives them its evening list |
| TrendHours.OutsideTheClock | desktop_gui.py:1858 | an hour outside every range gets the afternoon list on the desktop and the evening list on the web |
| HtmlConverter.Element | desktop_gui.py:1338 | an element opens with `<tag>` and has the length of its two tags and its text |
| HtmlConverter.Flush | desktop_gui.py:1329-1332 | closing a paragraph adds one `<p>` of its joined lines, and nothing when no paragraph is open |
| HtmlConverter.PairFrom | desktop_gui.py:1370 | the next `**` at or after a position, or none |
| HtmlConverter.Step | desktop_gui.py:1327-1371 | one line only appends chunks |
| HtmlConverter.Kinds | desktop_gui.py:1326-1327 | one kind per line |
| HtmlConverter.Run | desktop_gui.py:1326-1371 | the loop only appends chunks |
| HtmlConverter.Finish | desktop_gui.py:1373-1379 | the closing steps only append chunks |
| HtmlConverter.Body | desktop_gui.py:1223-1379 | the chunks start with the page head |
| HtmlConverter.ConvertToHtml | desktop_gui.py:1220-1398 | convert_to_html returns the page of the as-written rule |
| HtmlConverter.ConvertLines | desktop_gui.py:1323-1371 | the line loop gives the state of the specification's run, and in_paragraph holds exactly when a paragraph is open |
| HtmlConverter.ConvertLine | desktop_gui.py:1327-1371 | the loop body on one line is the specification's step |
| HtmlConverter.JoinSnoc | desktop_gui.py:1398 | joining one more part appends the separator and that part |
| HtmlConverter.Framed | desktop_gui.py:1381-1398 | chunks that start with the head, joined with the footer, are framed by head and footer |
| HtmlConverter.PageFrame | desktop_gui.py:1220-1398 | every page starts with the head and a newline and ends with a newline and the footer |
| HtmlConverter.ClassifyHeadings | desktop_gui.py:1339-1350 | `# x` is a second-level heading and `## x` a third-level one, of the stripped x |
| HtmlConverter.ClassifyTitle | desktop_gui.py:1336-1338 | a `제목:` line is a first-level heading of the text after the label |
| HtmlConverter.ParagraphBreaks | desktop_gui.py:1328-1371 | blank lines, headings and items close the open paragraph as one `<p>`; a title leaves it open; a plain line adds to it |
| HtmlConverter.ParagraphEntries | desktop_gui.py:1371 | every paragraph entry is a line followed by a space |
| HtmlConverter.BoldFromPlain | desktop_gui.py:1370 | text without a `**` pair is left as it is |
| HtmlConverter.BoldPlain | desktop_gui.py:1370 | a line without `**` is left as it is |
| HtmlConverter.PairAfterStarFree | desktop_gui.py:1370 | the non-greedy match closes at the first `**` after star-free text |
| HtmlConverter.BoldWrapped | desktop_gui.py:1370 | `**x**` becomes `<strong>x</strong>` |
| HtmlConverter.NotItemChunk | desktop_gui.py:1361 | a chunk whose second character is not `l` is not a list item |
| HtmlConverter.StepKeepsItemsPreceded | desktop_gui.py:1351-1358 | one line keeps every item right after a `<ul>` (or, corrected, after an item) |
| HtmlConverter.ItemsAfterOpen | desktop_gui.py:1356-1358 | as written, every item comes right after a `<ul>`: each item opens a list of its own |
| HtmlConverter.RunKeepsItemsPreceded | desktop_gui.py:1326-1371 | the whole loop keeps the head first and every item after a `<ul>` (or, corrected, an item) |
| HtmlConverter.TwoItemsAsWritten | desktop_gui.py:1351-1379 | as written, two `- ` lines give two nested `<ul>` and only one `</ul>` |
| HtmlConverter.TwoItemsCorrected | desktop_gui.py:1351-1379 | under the corrected rule two `- ` lines share one list, closed once |
| HtmlConverter.TwoItemLines | desktop_gui.py:1351 | two `- ` lines are two items |
| HtmlConverter.ItemLine | desktop_gui.py:1351-1358 | a `- x` line is an item of x |
| HtmlConverter.TwoItems | desktop_gui.py:1351-1379 | two items in a row give two lists as written and one list under the corrected rule |
| HtmlConverter.CorrectedListsShared | desktop_gui.py:1351-1362 | under the corrected rule every item follows its list's `<ul>` or the previous item, and no `<ul>` follows an item |
| HtmlConverter.RunOpensOnlyOutside | desktop_gui.py:1326-1371 | under the corrected rule the loop never opens a list right after an item |
| HtmlConverter.StepOpensOnlyOutside | desktop_gui.py:1351-1362 | one line under the corrected rule never opens a list right after an item |

## Left out

- Network calls (the Naver search, OpenAI chat and image generation, DataLab, pytrends, image downloads) are oracle parameters. A parameter returns the reply text or URL, or `None` when the call raises. Their request building, headers, retries and `time.sleep` delays are not modelled.
- Flask routing, login, cookies, CORS, `send_file` and the in-memory ZIP are not modelled. Only the archive name of `/api/download_images` is.
- The tkinter and Streamlit interfaces (widgets, dialogs, themes, clipboard, browser) and the threads that run the desktop stages are not modelled. Each desktop stage is one method call.
- File I/O (reading `.env`, settings and theme files, saving results, HTML previews, image files, folder creation) is not modelled. A `.env` file is its list of lines, and `None` stands for a missing file. Whether the blog folder was created is a parameter.
- Clocks and randomness (`datetime.now()`, `time.strftime`, `random.shuffle`) are not modelled. The hour and the timestamp are parameters, and a session's timestamp is an integer.
- The `prompts` module is not part of this model. Neither is the wording of the model prompts, since only their parsing matters.
- The keyword lists behind the hour tables are not modelled; TrendHours returns which entry is chosen.
- Floating-point values are not modelled. TitleStats.AnalyzeTitlePatterns keeps the sum of title lengths instead of `avg_length`. Seo.DensityPoints compares keyword density by integer cross-multiplication, so float rounding at the 1.5% and 4% boundaries is not modelled.
- Messages printed to the console or shown in dialogs are not modelled; only the route replies and stored state are.
- Extraction.ExtractKeepAll and Extraction.ExtractTitles take the cleaner as a parameter. All three callers pass the same replacement chain, ReplaceCleaner.CleanHtmlTags, which is proved about on its own.
- NumberInput.ParseInt: `int()` also accepts underscores between digits, non-ASCII digits and surrounding whitespace. Only an optional sign followed by ASCII digits is modelled; the reply is already stripped.
- TitleStats.HasFlag: `\d` matches every Unicode decimal digit; only ASCII digits are modelled.
- Numbered.DigitRun: `\d` in the title, prompt and number-stripping regexes matches every Unicode decimal digit; only ASCII digits are modelled, so a line such as "１. 제목" that starts with a full-width digit is not taken as numbered. Numbered.StripNumberDot and Numbered.MatchEnumerated inherit this.
- Text.Lower: `.lower()` and `re.IGNORECASE` fold all of Unicode; only ASCII letters are folded. Hangul has no case.
- WebDownload.IsAlnum: `str.isalnum()` is modelled for ASCII letters, ASCII digits and Hangul syllables only.
- ImagePrompts.CreateDesktopImagePrompts: the paragraph list that desktop `create_image_prompts` computes and never uses is left out.
- Seo.Report: the float `keyword_density` field of the result is left out; the report keeps the count and the word count it is computed from.
- test_naver_api.py is not part of this model; it is a network smoke test.

## Findings

| source | as written | input that shows it | evidently intended | confidence | as-written member | corrected member |
|---|---|---|---|---|---|---|
| desktop_gui.py:1356 | a list item opens a new `<ul>` unless the last chunk starts with `<ul>`; after the first item the last chunk is that `<li>`, so every item opens another list | the lines `- a` and `- b` give `<ul>`, `<li>a</li>`, `<ul>`, `<li>b</li>`, `</ul>`: two lists opened and one closed | consecutive items share one `<ul>`, which is opened only when no list is open | high (not executed) | HtmlConverter.TwoItemsAsWritten, HtmlConverter.ItemsAfterOpen | HtmlConverter.TwoItemsCorrected, HtmlConverter.CorrectedListsShared |
