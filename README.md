# A verified model of the migrador-liferay core

migrador-liferay moves a government web site into the Liferay CMS. It reads a sheet of
pages, builds the folder and page hierarchies, migrates documents and web contents, and
rewrites links. Much of it is HTTP calls to Liferay, but under those calls there is a layer
of deterministic rules. This project models that layer in Dafny and proves what those rules
promise:

- the hierarchy parser and the sheet's row-to-page transform;
- the folder-name, page-name, friendly-URL, file-name and MIME normalisers;
- the validator's text, title and URL normalisers;
- the URL cleaners and builders;
- the content and document caches, and the folder ID caches;
- the folder error log;
- the three-level migration queue;
- the shared retry policy;
- the folder and page hierarchy walks and the retry of failed folders;
- portlet selection;
- content-type dispatch, mixed-content sectioning, and collapse and tab field construction;
- routing of validation errors to their log files.

There is one module per source file. Each follows the file's own form:
- Classes whose methods update fields become Dafny classes, with `modifies` clauses. Each
  method is proved against a function of the old state.
- Loops become methods with invariants. Each is proved against a specification function.
- Pure branching code becomes functions and lemmas.

Every network call is a parameter of the model, so the model makes no assumption about
what Liferay does. A call is either an oracle function or a sequence of attempt outcomes
(a value, an HTTP status, or another error). Parsed HTML is given as an abstract summary:
the tags, classes, attributes and texts that the decisions read.

Helper modules stand in for the Python library:
- `PyStr`: `str.strip`, `split`, `join`, `lower`, `replace`, `in`, and `re.sub` on
  character classes.
- `PyValues`: JSON-like values, with truthiness and `dict.get`.
- `TextLib`: NFKD decomposition, `unicodedata.combining` and `unidecode`, on the Latin-1 letters.
  NFKD decomposition is Unicode Standard Annex #15.
- `UrlParse`: `urllib.parse.urlparse`/`urlsplit` and `unquote`. `unquote` is
  percent-decoding, section 2.1 of RFC 3986.
- `Wrappers`: `Option`.
- `Collecting`: list comprehensions with a filter.
- `WordCase`: the word casing shared by the folder and page names.
- `Retry`: the `_retry_operation` policy. The folder creator, the content creator and the
  content updater share it.
- `JournalPortlets`: journal-portlet code that `web_content_creator.py` and
  `content_update.py` both contain.
- `StructuredContent`: what the collapse and tab creators share.

Where `web_content_processor.py` defines `fetch_and_process_content` twice, the model follows
the second definition, the one Python keeps.

## Model

| member | source | states |
|---|---|---|
| HierarchyUtils.ParseHierarchy | src/utils/hierarchy_utils.py:5-8 | an empty string gives `["Raiz"]`; otherwise one level per `>`-separated field (count of `>` plus one), each level stripped and free of `>` |
| HierarchyUtils.StripAll | src/utils/hierarchy_utils.py:8 | the comprehension keeps one element per field, in order, each the stripped field |
| HierarchyUtils.ParseHierarchyFields | src/utils/hierarchy_utils.py:8 | a non-empty hierarchy is exactly the stripped `split('>')` fields, in order |
| HierarchyUtils.ParseHierarchyKeepsEmptyLevels | src/utils/hierarchy_utils.py:8 | `"A>>B"` parses to `["A", "", "B"]`: an empty interior level is kept, not rejected |
| HierarchyUtils.KeepLevels | src/utils/hierarchy_utils.py:19-23 | no kept level, lower-cased, is `raiz` or `hierarquia` |
| HierarchyUtils.RemoveIgnored | src/utils/hierarchy_utils.py:18-23 | removes the levels whose lower case is `raiz` or `hierarquia`, keeping the others in order; RemoveIgnoredMembers proves exactly which levels stay |
| HierarchyUtils.FilterHierarchy | src/utils/hierarchy_utils.py:10-23 | an empty string gives `[]`; no level of the result, lower-cased, is an ignored term |
| HierarchyUtils.KeepLevelsIsRemoveIgnored | src/utils/hierarchy_utils.py:19-23 | the filtering comprehension equals stripping every field and then removing the ignored terms |
| HierarchyUtils.FilterIsParseWithoutRoot | src/utils/hierarchy_utils.py:8-23 | for a non-empty string `filter_hierarchy` is `parse_hierarchy` with the ignored terms removed, order kept |
| HierarchyUtils.RemoveIgnoredMembers | src/utils/hierarchy_utils.py:18-23 | a level is in the filtered result exactly when it is a parsed level whose lower-case form is not ignored |
| Spreadsheet.SheetNamed | src/core/spreadsheet.py:25-28 | the first worksheet whose lowercase title contains the word; `None` exactly when no title contains it |
| Spreadsheet.FormatPageType | src/core/spreadsheet.py:142-145 | the formatted cell, lowercased and without `página `, has no surrounding whitespace |
| Spreadsheet.PageTypeOf | src/core/spreadsheet.py:147-154 | the type is one of the four page types; `node`, `link_to_layout` and `url` exactly for their Portuguese labels, `portlet` otherwise |
| Spreadsheet.WidgetFormatted | src/core/spreadsheet.py:142-145 | the default `widget` is already in formatted form |
| Spreadsheet.PageTypeCell | src/core/spreadsheet.py:137-140 | column 12, or `widget` when it is missing, blank or `-`; DefaultPageType proves such rows give `portlet` |
| Spreadsheet.PageTypeName | src/core/spreadsheet.py:137-154 | the `type` of a row's page: its page-type cell formatted and mapped; DefaultPageType, PagePrefixIgnored and CanonicalPageType prove how it reads the cell |
| Spreadsheet.DefaultPageType | src/core/spreadsheet.py:137-154 | a missing, blank or `-` page-type cell gives a `portlet` page |
| Spreadsheet.PagePrefixIgnored | src/core/spreadsheet.py:143 | a leading `Página `, in any case, does not change the page type |
| Spreadsheet.CanonicalPageType | src/core/spreadsheet.py:143 | a lowercase trimmed cell without `página ` is read as it is |
| Spreadsheet.ColumnTypeOf | src/core/spreadsheet.py:162-167 | the type is one of the two column types, `2_columns_ii` exactly for `30/70` after trimming and lowercasing |
| Spreadsheet.DefaultColumnType | src/core/spreadsheet.py:157-167 | a missing, blank or `-` column-type cell gives one column |
| Spreadsheet.ColumnTypeCell | src/core/spreadsheet.py:157-160 | column 16, or `1_column` when it is missing, blank or `-`; DefaultColumnType proves such rows give one column |
| Spreadsheet.ColumnTypeName | src/core/spreadsheet.py:157-167 | the `column_type` of a row's page: its column-type cell mapped; DefaultColumnType proves the default |
| Spreadsheet.PageOf | src/core/spreadsheet.py:175-207 | a row gives a page exactly when it has a source, more than eight cells, a hierarchy that filters to a non-empty list and a last level that is not blank; the page's title is that last level, it is visible exactly for an empty or `menu` visibility, and it has a menu title exactly when column 8 is not empty |
| Spreadsheet.Cell | src/core/spreadsheet.py:184-193 | a cell stripped, or empty when it is missing or empty; PageOf reads the menu title, URLs and link with it |
| Spreadsheet.Selected | src/core/spreadsheet.py:175 | a row names a page when its source is set, it has more than eight cells and its hierarchy cell is set; ShortRowSkipped proves the other rows give nothing |
| Spreadsheet.PageFromRow | src/core/spreadsheet.py:175-207 | the body of the row loop builds the page of the row, with its URLs built |
| Spreadsheet.BuildPages | src/core/spreadsheet.py:173-207 | the row loop gives the pages of the rows, in row order |
| Spreadsheet.PagesFromRows | src/core/spreadsheet.py:174-207 | every page comes from a row that gives that page |
| Spreadsheet.PagesInRowOrder | src/core/spreadsheet.py:174-207 | the pages of earlier rows come first, and a skipped row adds no page |
| Spreadsheet.ShortRowSkipped | src/core/spreadsheet.py:175 | a row of at most eight cells, or without a source or a hierarchy cell, gives no page |
| Spreadsheet.PagesOf | src/core/spreadsheet.py:173-207 | the pages of the rows, in row order; BuildPages computes it, PagesFromRows and PagesInRowOrder prove each page comes from its row in order |
| Spreadsheet.SheetData | src/core/spreadsheet.py:129-207 | the pages of the first `mapeamento` worksheet's rows after the header, or none when no worksheet is so called |
| Spreadsheet.UpdateRows | src/core/spreadsheet.py:33-58 | with every row holding at least two cells there is one record per row, in order, with the title from the first cell and the article ID and destination both from the second; otherwise the rows raise |
| Spreadsheet.GetSheetUpdateData | src/core/spreadsheet.py:24-65 | the loop gives the update records of the `semob` sheet, or none when the sheet is missing or a row is short |
| Spreadsheet.UpdateData | src/core/spreadsheet.py:14-65 | `get_sheet_update_data`: one record per row of the first `semob` worksheet, nothing without one or with a short row; GetSheetUpdateData computes it and UpdateDataRows proves its rows |
| Spreadsheet.UpdateDataRows | src/core/spreadsheet.py:24-65 | with every row holding two cells the records are one per row; one short row gives no records at all |
| FolderNameValidator.InvalidCharsMembers | src/validators/folder_name_validator.py:16 | a character is one of the fifteen replaced characters exactly when it is one of `\ / : * ? " < > \| ! $ % ^ & +` |
| FolderNameValidator.IsInvalidChar | src/validators/folder_name_validator.py:16 | the fifteen characters of `INVALID_CHARS`; InvalidCharsMembers proves it is list membership |
| FolderNameValidator.IsControl | src/validators/folder_name_validator.py:55 | a code point below 32 or equal to 127; DropControlChars proves exactly these go |
| FolderNameValidator.EndsWithAny | src/validators/folder_name_validator.py:68 | `any(s.endswith(end) for end in endings)`; EndsWithInvalid proves that over the invalid endings it tests the last character |
| FolderNameValidator.IsCleanFolderName | src/validators/folder_name_validator.py:64-79 | a name of 1 to 255 allowed characters, no `--` or `..`, not ending in `.`, `-` or a space; CleanSound and CleanFolderName prove every accepted name is one |
| FolderNameValidator.IsReserved | src/validators/folder_name_validator.py:9-13 | membership in `RESERVED_WORDS`: `con`, `prn`, `aux`, `nul`, and `com`/`lpt` with one digit 1-9; CleanFolderName proves such names are refused |
| FolderNameValidator.EndsWithInvalid | src/validators/folder_name_validator.py:68 | the loop guard "ends with `..`, `.`, `-` or a space" holds exactly when the last character is `.`, `-` or a space |
| FolderNameValidator.CleanFolderName | src/validators/folder_name_validator.py:25-79 | blank names and reserved device names (compared lower-case, before transliteration) give `None`; any other result is 1-255 characters long, free of the invalid and control characters, has no `--` or `..`, and does not end in `.`, `-` or a space |
| FolderNameValidator.ReplaceEachChars | src/validators/folder_name_validator.py:51-52 | after the replacements a character is either a hyphen or an original character that is not replaced |
| FolderNameValidator.ReplaceEach | src/validators/folder_name_validator.py:51-52 | each listed character replaced by `-`, in list order; ReplaceEachChars and ReplaceEachSound prove no listed character survives |
| FolderNameValidator.ReplacePatternsChars | src/validators/folder_name_validator.py:61-62 | replacing the patterns introduces no character but the hyphen |
| FolderNameValidator.ReplacePatterns | src/validators/folder_name_validator.py:61-62 | each listed pattern replaced by `-`, in list order; ReplacePatternsChars proves no new character but `-` appears |
| FolderNameValidator.DropControlChars | src/validators/folder_name_validator.py:55 | the join keeps only original characters with code point at least 32 and not 127 |
| FolderNameValidator.DropControl | src/validators/folder_name_validator.py:55 | the characters with code point at least 32 and not 127, in order; DropControlChars proves exactly those stay |
| FolderNameValidator.ReplaceEachSound | src/validators/folder_name_validator.py:51-52 | no invalid character survives the replacement loop |
| FolderNameValidator.DropControlSound | src/validators/folder_name_validator.py:55 | after dropping control characters on a name without invalid characters, every character is allowed |
| FolderNameValidator.CollapseSpacesSound | src/validators/folder_name_validator.py:58 | collapsing whitespace runs keeps every character allowed |
| FolderNameValidator.ReplacePatternsSound | src/validators/folder_name_validator.py:61-62 | replacing `../`, `/..` and `//` keeps every character allowed |
| FolderNameValidator.CleanedAllowed | src/validators/folder_name_validator.py:48-62 | every character left after transliteration, replacement, control removal, space collapse and pattern replacement is allowed |
| FolderNameValidator.CleanSound | src/validators/folder_name_validator.py:64-77 | a name with allowed characters whose finished form has 1-255 characters is a clean folder name |
| FolderNameValidator.FinishedSound | src/validators/folder_name_validator.py:64-72 | the hyphen collapse, ending strip and dot collapse leave allowed characters, no `--`, no `..` and no `.`, `-` or space at the end |
| FolderNameValidator.Cleaned | src/validators/folder_name_validator.py:48-62 | transliteration, character replacement, control removal, whitespace collapse and pattern replacement in that order; CleanedAllowed proves only allowed characters are left |
| FolderNameValidator.Finished | src/validators/folder_name_validator.py:64-72 | the hyphen collapse, the ending strip and the dot collapse; FinishedSound and CleanSound prove the result is a clean folder name |
| FolderNameValidator.ReplaceInvalidChars | src/validators/folder_name_validator.py:51-52 | the loop replaces each invalid character by `-`, in list order |
| FolderNameValidator.ReplaceInvalidPatterns | src/validators/folder_name_validator.py:61-62 | the loop replaces each invalid pattern by `-`, in list order |
| FolderNameValidator.StripInvalidEndings | src/validators/folder_name_validator.py:67-69 | the loop ends (each round is shorter) with the name stripped of trailing `.`, `-` and spaces |
| FolderNameValidator.ValidateAndCleanFolderName | src/validators/folder_name_validator.py:25-79 | the step-by-step validator computes `CleanFolderName`, so a result is always a clean folder name |
| FolderNameValidator.NormalizeFolderName | src/validators/folder_name_validator.py:81-124 | the result is `''` exactly when the title is empty or blank; otherwise it is the fallback `pasta_sem_nome` or a clean folder name |
| FolderNameValidator.RemoveNonWord | src/validators/folder_name_validator.py:121 | `re.sub(r'[^\w\s]', '', …)`: only letters, digits, `_` and whitespace kept; NormalizeFolderName uses it for the second validation |
| FolderNameValidator.FormattedFolderTitle | src/validators/folder_name_validator.py:95-113 | the validator receives one word per title word: `df`, `gdf`, `sei`, `cig` in capitals, `de`…`em` lower-case after the first word, every other word capitalised |
| WordCase.FormatWords | src/validators/folder_name_validator.py:106-113 | one formatted word per input word |
| WordCase.FormatWordIsWord | src/validators/folder_name_validator.py:106-110 | casing a word keeps it a non-empty word without whitespace |
| WordCase.FormattedWordsSplit | src/validators/folder_name_validator.py:113 | splitting the space-joined formatted words gives back the formatted words |
| PageProcessor.HyphenateOthers | src/processors/page_processor.py:9 | same length; each character of `[a-zA-Z0-9-]` is kept and every other character becomes `-` |
| PageProcessor.Slug | src/processors/page_processor.py:7-10 | the title after NFKD, without combining marks, with every character outside `[a-zA-Z0-9-]` replaced by `-` and every run of `-` collapsed to one; SlugShape proves it holds only `[a-zA-Z0-9-]` and no `--` |
| PageProcessor.IsFriendlyUrl | src/processors/page_processor.py:6-11 | the shape of a friendly URL: only `[a-z0-9-]`, no `--`, no `-` at either end; FriendlyUrlSound proves every result of `normalize_friendly_url` has it |
| PageProcessor.NormalizeFriendlyUrl | src/processors/page_processor.py:6-11 | `normalize_friendly_url`: the slug stripped of `-` at both ends, then lower-cased; FriendlyUrlSound proves its shape and FriendlyUrlIdempotent that it is idempotent |
| PageProcessor.SlugShape | src/processors/page_processor.py:7-10 | after the substitutions the text holds only `[a-zA-Z0-9-]` and no `--` |
| PageProcessor.StripHyphensShape | src/processors/page_processor.py:10 | `.strip('-')` of such a text keeps those properties and leaves no hyphen at either end |
| PageProcessor.LowerSlugShape | src/processors/page_processor.py:10 | lower-casing it gives a text of `[a-z0-9-]` with no doubled, leading or trailing hyphen |
| PageProcessor.FriendlyUrlSound | src/processors/page_processor.py:6-11 | every friendly URL is made of `[a-z0-9-]`, has no `--` and neither starts nor ends with `-` |
| PageProcessor.DropCombiningUnchanged | src/processors/page_processor.py:8 | dropping combining marks from a text that has none changes nothing |
| PageProcessor.FriendlyUrlFixpoint | src/processors/page_processor.py:6-11 | a friendly URL normalises to itself |
| PageProcessor.FriendlyUrlIdempotent | src/processors/page_processor.py:6-11 | `normalize_friendly_url` is idempotent on every title, not only on ASCII ones |
| PageProcessor.PageNameWith | src/processors/page_processor.py:14-30 | the page name is `''` exactly when the title is blank |
| PageProcessor.PageNameWords | src/processors/page_processor.py:20-30 | splitting the page name gives one formatted word per title word, in order |
| PageProcessor.PageNameOfWords | src/processors/page_processor.py:20-30 | a title with words becomes those words, formatted, joined by single spaces |
| PageProcessor.NormalizePageNameAsWritten | src/processors/page_processor.py:14-30 | with the connective written `Ã©`: `''` exactly for a blank title |
| PageProcessor.NormalizePageName | src/processors/page_processor.py:14-30 | with the connective `é`: `''` exactly for a blank title |
| PageProcessor.NormalizePageNameWords | src/processors/page_processor.py:20-30 | the page name has as many words as the title, each the formatted title word |
| PageProcessor.PageNameCasing | src/processors/page_processor.py:24-28 | word i is upper-cased if an acronym, left lower-case if a connective and i > 0, and capitalised otherwise |
| PageProcessor.MojibakeNeverMatches | src/processors/page_processor.py:16-27 | no lower-cased word equals `Ã©`, so that set entry is never used |
| PageProcessor.AsWrittenIgnoresMojibake | src/processors/page_processor.py:16-28 | as written, formatting a word is the same as with the `Ã©` entry removed |
| PageProcessor.ExampleWords | src/processors/page_processor.py:20 | the title `a é` has the words `a` and `é` |
| PageProcessor.ExampleFirstWord | src/processors/page_processor.py:28 | the first word `a` is capitalised to `A` |
| PageProcessor.ExampleSecondWord | src/processors/page_processor.py:16-28 | `é` in second place becomes `É` as written and stays `é` as intended |
| PageProcessor.MojibakeAsWritten | src/processors/page_processor.py:14-30 | as written, a title whose words are `a é` becomes `A É` |
| PageProcessor.MojibakeIntended | src/processors/page_processor.py:14-30 | as intended, a title whose words are `a é` becomes `A é` |
| PageProcessor.MojibakeExample | src/processors/page_processor.py:14-30 | the concrete title `a é` gives `A É` as written and `A é` as intended |
| PageCreator.WithoutRoot | src/creators/page_creator.py:272 | the comprehension keeps no level named `raiz` in any case, and is no longer than the hierarchy |
| PageCreator.WithoutRootMembers | src/creators/page_creator.py:272 | a level is kept exactly when it is in the hierarchy and is not `raiz` in any case |
| PageCreator.WithoutRootIdempotent | src/creators/page_creator.py:272 | removing the root twice is removing it once |
| PageCreator.MenuLevelName | src/creators/page_creator.py:106-123 | no level is chosen exactly when nothing is left without the root; with 3 or more levels the second-to-last, otherwise the last |
| PageCreator.MenuTitleFromHierarchy | src/creators/page_creator.py:101-125 | `Menu de Navegação` when no level is left, otherwise the chosen level's page name, normalised as written (so `a é` titles the menu `A É`) |
| PageCreator.Render | src/creators/page_creator.py:149 | `f"{url_vinculada}"`: a missing linked URL renders as the text `None` |
| PageCreator.MenuTitleIgnoresRoot | src/creators/page_creator.py:110 | the menu title does not depend on `raiz` levels |
| PageCreator.MenuTitleBlank | src/creators/page_creator.py:118-125 | the title is empty exactly when the chosen level is blank |
| PageCreator.MenuLevelFromHierarchy | src/creators/page_creator.py:127-143 | the level is 0 or 1, and 1 exactly when more than two levels remain without the root |
| PageCreator.TypeSettings | src/creators/page_creator.py:145-158 | `1_column` and `2_columns_ii` give their layout texts with the random ID, every other column type `""` |
| PageCreator.OneColumnSettings | src/creators/page_creator.py:148-151 | the `1_column` layout text: the journal portlet with the random ID, `layoutUpdateable=true`, the rendered linked URL and the `1_column` template; OneColumnNoMenu proves it names no menu portlet |
| PageCreator.MenuLine | src/creators/page_creator.py:153 | the first line of the `2_columns_ii` layout: `column-1=` and the menu portlet with the random ID; MenuLineParts proves how it splits at `=` |
| PageCreator.TwoColumnRest | src/creators/page_creator.py:154-155 | the lines of the `2_columns_ii` layout after the menu line: the journal portlet in column 2 and the template |
| PageCreator.TwoColumnSettings | src/creators/page_creator.py:152-156 | the `2_columns_ii` layout text: the menu line, a line break, then the rest; TwoColumnShape and TwoColumnMenuId prove its menu portlet is found |
| PageCreator.ExtractMenuPortletId | src/creators/page_creator.py:160-178 | the loop returns what `_extract_menu_portlet_id` specifies (the stripped text after `=` on the first line naming the menu portlet), and a found ID implies the settings name that portlet |
| PageCreator.MenuIdInLines | src/creators/page_creator.py:172-177 | the line loop: the stripped text after the first `=` of the first line that names the menu portlet and has an `=`; `None` when no line does |
| PageCreator.MenuPortletIdOf | src/creators/page_creator.py:160-178 | `_extract_menu_portlet_id`: `None` unless the settings name the menu portlet, otherwise the line loop's answer; ExtractMenuPortletId is proved to compute it |
| PageCreator.MenuPortletText | src/creators/page_creator.py:153 | the menu portlet name has no `=` and no line break, and names `SiteNavigationMenuPortlet` at characters 45-70 |
| PageCreator.MenuPortletNamesMarker | src/creators/page_creator.py:153-170 | the menu portlet name contains the marker the extractor looks for |
| PageCreator.OneColumnTexts | src/creators/page_creator.py:149-150 | the fixed texts of the one-column layout contain no `M`, so they cannot name the menu portlet |
| PageCreator.MarkerText | src/creators/page_creator.py:170 | the marker contains `M` and no `=` or line break |
| PageCreator.MenuLineParts | src/creators/page_creator.py:153-175 | the menu line splits at `=` into `column-1` and the portlet ID with the random digits |
| PageCreator.MenuLineHasMarker | src/creators/page_creator.py:153-174 | the menu line names the menu portlet |
| PageCreator.MenuLineSingle | src/creators/page_creator.py:153 | the menu line holds no line break |
| PageCreator.TwoColumnShape | src/creators/page_creator.py:152-156 | the two-column layout names the menu portlet and its first line is the menu line |
| PageCreator.TwoColumnMenuId | src/creators/page_creator.py:146-178 | for `2_columns_ii` settings the extracted ID is the menu portlet token with the random ID |
| PageCreator.OneColumnNoMenu | src/creators/page_creator.py:148-171 | for `1_column` settings, whose linked URL does not name the marker, no menu portlet ID is found |
| PageCreator.RequestShape | src/creators/page_creator.py:14-22 | the page `name` sent is the title normalised as written, empty exactly when the title is blank, and the `friendlyURL` sent is a well-formed friendly URL |
| PageCreator.SentName | src/creators/page_creator.py:19 | the `name` sent for a request: its title normalised by `normalize_page_name` as written; SentNameMojibake shows `a é` sent as `A É` |
| PageCreator.SentUrl | src/creators/page_creator.py:20 | the `friendlyURL` sent for a request: its friendly URL normalised; RequestShape proves it well formed |
| PageCreator.SentNameMojibake | src/creators/page_creator.py:19 | a page titled `a é` is sent under the name `A É`, as `normalize_page_name` is written |
| PageCreator.CacheStore | src/creators/page_creator.py:260-261 | storing a non-zero ID keeps every cached ID non-zero |
| PageCreator.Ensure | src/creators/page_creator.py:227-263 | a hit returns the cached ID with nothing sent; a miss sends one request, returns its ID and caches it only when it is non-zero |
| PageCreator.EnsureRequestSent | src/creators/page_creator.py:252-253 | on a miss the page is sent under the title normalised as written, and, without a friendly URL, under the title's friendly URL (normalising it again changes nothing) |
| PageCreator.EnsureRequest | src/creators/page_creator.py:252-253 | the `create_page` call of `ensure_page_exists` on a miss: the title, and the title's friendly URL when none is given; EnsureRequestSent proves what it sends |
| PageCreator.Names | src/creators/page_creator.py:275 | one name per level, each the level normalised as written |
| PageCreator.FirstIndex | src/creators/page_creator.py:279 | `index` finds the first position holding the level |
| PageCreator.Plan | src/creators/page_creator.py:274-281 | one planned `ensure_page_exists` call per level, named as written |
| PageCreator.PathKeyStep | src/creators/page_creator.py:276 | the path grows by `" > name"`, or becomes `name` while empty |
| PageCreator.PathKey | src/creators/page_creator.py:276 | `current_path` after the given names: each appended as `" > name"`, or as `name` while the path is empty; PathKeyJoin proves it is the `" > "` join |
| PageCreator.LevelKey | src/creators/page_creator.py:275-278 | the cache key of level i: the path through the names of levels 0..i; LevelKeyJoin proves it is their join |
| PageCreator.PlanKey | src/creators/page_creator.py:275-278 | level i is ensured under a key that extends the path of the levels before it by its name normalised as written |
| PageCreator.PlanLevel | src/creators/page_creator.py:275-279 | level i is ensured with its name normalised as written and the levels up to the first occurrence of its label |
| PageCreator.PathKeyJoin | src/creators/page_creator.py:276 | with no blank name the path is the names joined by `" > "` |
| PageCreator.LevelKeyJoin | src/creators/page_creator.py:275-278 | the cache key of level i is `" > ".join` of the levels 0..i normalised as written |
| PageCreator.SubHierarchyFirst | src/creators/page_creator.py:279 | a level met for the first time gets the levels down to itself |
| PageCreator.SubHierarchyRepeat | src/creators/page_creator.py:279 | a repeated label gets the earlier, shorter prefix of its first occurrence |
| PageCreator.SubHierarchy | src/creators/page_creator.py:279 | `hierarchy_levels[:hierarchy_levels.index(level) + 1]`; SubHierarchyFirst and SubHierarchyRepeat prove which prefix a level gets |
| PageCreator.WalkKeepsValid | src/creators/page_creator.py:260-288 | the walk never caches a zero ID |
| PageCreator.WalkExtends | src/creators/page_creator.py:248-288 | the walk only adds cache entries and requests; none is overwritten or undone |
| PageCreator.WalkCachesAll | src/creators/page_creator.py:274-285 | a walk that does not fail leaves every level's key cached and ends under the last level's cached page |
| PageCreator.WalkFromCache | src/creators/page_creator.py:248-285 | when every key is cached the walk sends nothing, changes nothing and ends under the last cached page |
| PageCreator.WalkTwice | src/creators/page_creator.py:248-288 | walking the same levels again after a successful walk sends no request and gives the same result |
| PageCreator.LevelsTwice | src/creators/page_creator.py:272-288 | a second `create_hierarchy` walk down the same levels is answered from the cache |
| PageCreator.LevelRequest | src/creators/page_creator.py:277-281 | the request of one level: `ensure_page_exists` with the level's title, no friendly URL, the parent and the level's hierarchy |
| PageCreator.LevelRequests | src/creators/page_creator.py:277-281 | the request of every level, with the same layout options |
| PageCreator.WalkFrom | src/creators/page_creator.py:274-288 | the level loop from level i on: each level is ensured under its key, its ID becomes the next parent, and a zero ID stops the walk; WalkKeepsValid, WalkExtends, WalkCachesAll and WalkFromCache prove what it keeps |
| PageCreator.WalkLevels | src/creators/page_creator.py:272-288 | the level loop of `create_hierarchy` from the first level under the root ID 0; LevelsTwice proves a second walk is answered from the cache |
| PageCreator.Hierarchy | src/creators/page_creator.py:265-304 | a failed level makes the result 0 |
| PageCreator.ShouldCreateFinal | src/creators/page_creator.py:307-310 | `_should_create_final_page`: true for no levels, or when the final title and the last level, both normalised as written and lower-cased, differ |
| PageCreator.FinalHierarchy | src/creators/page_creator.py:291-293 | the final page's hierarchy: the levels, with the final title appended unless it is one of them |
| PageCreator.FinalPage | src/creators/page_creator.py:290-304 | the final page never touches the cache, and when it is the last level again nothing is sent and the last level's ID is returned |
| PageCreator.PageCreatorState.constructor | src/creators/page_creator.py:7-12 | the page cache starts empty |
| PageCreator.PageCreatorState.CreatePage | src/creators/page_creator.py:14-33 | one request with the call's arguments is recorded and its ID, `0` on failure, returned; the cache is not touched |
| PageCreator.PageCreatorState.CreateAndCache | src/creators/page_creator.py:251-263 | the miss path updates the state as `Ensure` specifies |
| PageCreator.PageCreatorState.EnsurePageExists | src/creators/page_creator.py:227-263 | the new state and ID are those of `Ensure` with the defaulted friendly URL, and the cache stays free of zero IDs |
| PageCreator.PageCreatorState.EnsureLevel | src/creators/page_creator.py:275-281 | one pass of the loop extends the path to the plan's key and ensures that level's page |
| PageCreator.PageCreatorState.CreateFinalPage | src/creators/page_creator.py:290-304 | the final step updates the state as `FinalPage` specifies |
| PageCreator.PageCreatorState.CreateHierarchy | src/creators/page_creator.py:265-304 | the loop and the final page compute `Hierarchy`: the walk, 0 on a failed level, then the final page |
| Retry.RetryRunShape | src/creators/folder_creator.py:105-135 | at most `max_retries` attempts; each sleep is the schedule's wait for the failure before it; every attempt but the last failed with a retryable error; a value is the last attempt's; a raise is a client error or the last attempt's non-rate-limit error; the implicit `None` comes only after all attempts, the last one rate-limited |
| Retry.RateLimitedFailure | src/creators/folder_creator.py:114 | an HTTP failure with status 429, 503 or 504; RetryAllRateLimited and RetryNoneExactly are stated with it |
| Retry.ClientFailure | src/creators/folder_creator.py:119 | an HTTP failure with status 400, 401, 403, 404 or 405; RetryClientErrorStops proves it ends the run at once |
| Retry.WaitAfter | src/creators/folder_creator.py:114-133 | the sleep after a failed attempt: the schedule's rate-limit wait for 429, 503 and 504, its other wait for anything else; RetryRunShape and LinearSchedule prove the sleeps follow it |
| Retry.RetryFrom | src/creators/folder_creator.py:105-135 | `_retry_operation` from attempt k on: the first success returns, client errors raise at once, rate limits retry, other errors retry until the last attempt; RetryRunShape, RetryNoneExactly, RetryClientErrorStops and RetryFirstSuccess prove it |
| Retry.FailedBefore | src/creators/folder_creator.py:109-133 | every attempt in a range failed with an error that is not a client error; RetryNoneExactly and AssociateNoneExactly are stated with it |
| Retry.RetryAllRateLimited | src/creators/folder_creator.py:114-118 | when every attempt is rate-limited, the run sleeps `max_retries` times and returns `None` |
| Retry.RetryNoneExactly | src/creators/folder_creator.py:109-118 | the run returns `None` exactly when its last attempt was rate-limited and no earlier attempt succeeded or hit a client error |
| Retry.RetryClientErrorStops | src/creators/folder_creator.py:119-120 | a 400, 401, 403, 404 or 405 is raised at once, with no further attempt |
| Retry.RetryFirstSuccess | src/creators/folder_creator.py:109-111 | the first successful attempt ends the run with its value |
| Retry.LinearSchedule | src/creators/web_content_creator.py:126-159 | on the content creator's schedule, three rate limits sleep 2, 4 and 6 seconds and end in `None`; three other errors sleep 1 and 2 seconds and raise the third |
| Retry.SleepStep | src/creators/folder_creator.py:114-125 | one retried attempt adds its wait to the sleeps so far |
| Retry.RetryOperation | src/creators/folder_creator.py:105-135 | the attempt loop computes the run `RetryFrom` specifies, with its result, attempt count and sleeps |
| FolderErrors.NewError | folder_error_processor.py:11-19 | a new failure starts with retry count 0 |
| FolderErrors.SameFolder | folder_error_processor.py:31-37 | two entries are about the same folder when title, folder type and parent agree; FindEntry and AddErrorKeepsDistinct are stated with it |
| FolderErrors.FindEntry | folder_error_processor.py:31-37 | the first entry with the same title, folder type and parent, or none when no entry matches |
| FolderErrors.AddErrorRefreshes | folder_error_processor.py:39-43 | a report about a logged folder refreshes its message, timestamp and hierarchy in place; length, order, retry count and every other entry are unchanged |
| FolderErrors.AddErrorAppends | folder_error_processor.py:44-46 | a report about a new folder is appended, so the log grows by one |
| FolderErrors.Refreshed | folder_error_processor.py:39-43 | the logged entry with the newer report's message, timestamp and hierarchy; AddErrorRefreshes proves only those three change |
| FolderErrors.AddedError | folder_error_processor.py:28-46 | the log after `add_error`: the first matching entry refreshed, or the report appended; AddErrorRefreshes, AddErrorAppends, AddErrorKeepsDistinct and AddErrorRecords prove its effect |
| FolderErrors.AddErrorKeepsDistinct | folder_error_processor.py:28-46 | recording a failure keeps the log free of two entries about the same folder |
| FolderErrors.AddErrorRecords | folder_error_processor.py:28-46 | afterwards the log holds an entry about that folder with the new message |
| FolderErrors.FolderErrorProcessor.constructor | folder_error_processor.py:22-23 | a new processor starts with an empty log |
| FolderErrors.FolderErrorProcessor.AddError | folder_error_processor.py:28-46 | the search loop refreshes the first matching entry or appends, as `AddedError` specifies |
| FolderErrors.FolderErrorProcessor.GetFailedFolders | folder_error_processor.py:90-92 | returns the current log |
| FolderErrors.FolderErrorProcessor.ClearErrors | folder_error_processor.py:94-96 | the log becomes empty |
| FolderCreator.FolderUrlShape | src/creators/folder_creator.py:43-49 | every folder URL starts with the headless-delivery API root and ends with the type's collection |
| FolderCreator.FolderUrlRoot | src/creators/folder_creator.py:45-46 | with parent 0 the URL is the site's structured-content collection for `journal` and the site's document collection for any other type |
| FolderCreator.FolderUrlNested | src/creators/folder_creator.py:48-49 | under a parent the URL is `{base}/{parent}/{base}`, with documents for any type other than `journal` |
| FolderCreator.ComparisonKey | src/creators/folder_creator.py:36-40 | `get_comparison_key`: lower case, NFKD, then only ASCII characters kept; CacheThenLookupByKey proves titles with equal keys share a cached ID |
| FolderCreator.FolderPath | src/creators/folder_creator.py:48 | `structured-content-folders` for `journal` and `document-folders` for any other type; FolderUrlRoot and FolderUrlNested prove which collection a URL names |
| FolderCreator.SiteUrl | src/creators/folder_creator.py:33-34 | the site-level collection URL the constructor precomputes for each type; FolderUrlRoot proves `_get_folder_url` returns it for parent 0 |
| FolderCreator.NestedUrl | src/creators/folder_creator.py:49 | `{base}/o/headless-delivery/v1.0/{path}/{parent}/{path}`; FolderUrlNested proves `_get_folder_url` returns it under a parent |
| FolderCreator.FolderUrl | src/creators/folder_creator.py:43-49 | `_get_folder_url`: the site URL for parent 0, else the nested URL; FolderUrlShape, FolderUrlRoot and FolderUrlNested prove its shape |
| FolderCreator.CacheThenLookup | src/creators/folder_creator.py:137-169 | a folder just cached is found again under its title, parent and type |
| FolderCreator.CacheThenLookupByKey | src/creators/folder_creator.py:147-176 | a title with the same comparison key finds the new ID too, unless it has its own exact-title entry, which is consulted first and wins |
| FolderCreator.CacheFrame | src/creators/folder_creator.py:137-183 | caching under one parent and type leaves every lookup under another parent or type unchanged |
| FolderCreator.Contents | src/creators/folder_creator.py:158-161 | the folders cached under one parent and type, empty when none; CacheFrame proves caching elsewhere leaves it alone |
| FolderCreator.CacheFolder | src/creators/folder_creator.py:137-161 | `_cache_folder_id`: the exact, comparison-key, existence and parent-contents caches learn the folder; CacheThenLookup and CacheThenLookupByKey prove it is found again |
| FolderCreator.Lookup | src/creators/folder_creator.py:163-183 | `_get_cached_folder_id`: the exact title, then the comparison key, then the parent's contents, else none; CacheThenLookup and CacheFrame prove how it answers after caching |
| FolderCreator.ExtendsRefl | src/creators/folder_creator.py:137-479 | a state extends itself |
| FolderCreator.ExtendsTrans | src/creators/folder_creator.py:137-479 | extending is transitive: requests are only ever appended and the hierarchy cache is untouched below the hierarchy walk |
| FolderCreator.FetchParent | src/creators/folder_creator.py:242-290 | listing a parent only appends requests and leaves the hierarchy cache alone |
| FolderCreator.FetchCached | src/creators/folder_creator.py:245-247 | a parent whose contents are cached is answered from the cache with no request |
| FolderCreator.CacheItemsFinds | src/creators/folder_creator.py:267-274 | every listed folder can be looked up afterwards by its comparison key, with the ID the folder map holds |
| FolderCreator.CacheItemsStep | src/creators/folder_creator.py:267-274 | one more listed folder is cached and mapped by its comparison key, a later one replacing an earlier |
| FolderCreator.CacheItems | src/creators/folder_creator.py:267-274 | the caches after `_cache_folder_id` for each listed folder in order; CacheItemsFinds proves every listed folder is found again |
| FolderCreator.ItemMap | src/creators/folder_creator.py:270-275 | `folder_map`: comparison key to ID, a later folder replacing an earlier one; CacheItemsStep proves it grows one folder at a time |
| FolderCreator.Posts | src/creators/folder_creator.py:206-208 | each attempt sends one identical creation request |
| FolderCreator.PostsStep | src/creators/folder_creator.py:206-208 | one more attempt appends one more creation request |
| FolderCreator.CreateAttempt | src/creators/folder_creator.py:206-216 | `create_attempt` as the retry loop sees it: success exactly on a 200 or 201 with a non-zero `id`; NewFolder and AttemptErrorsStep are stated with it |
| FolderCreator.Attempts | src/creators/folder_creator.py:198-226 | the k-th creation attempt answers with the run's (first+k)-th post; `Created` retries it up to three times and CreateNamed computes that |
| FolderCreator.HttpErrorMessage | src/creators/folder_creator.py:218 | `error_msg` of a refused creation, `HTTP {status}`; AttemptErrorsStep proves it is what the log records |
| FolderCreator.AttemptErrors | src/creators/folder_creator.py:218-226 | the log after the first n attempts, each refused answer recorded with `add_error`; AttemptErrorsStep proves the step |
| FolderCreator.AttemptErrorsStep | src/creators/folder_creator.py:218-226 | after attempt n the log records that attempt's refused answer, if it was one |
| FolderCreator.NewFolder | src/creators/folder_creator.py:185-240 | creating a folder only appends requests and never touches the hierarchy cache |
| FolderCreator.Created | src/creators/folder_creator.py:198-240 | the retried creation only appends requests |
| FolderCreator.Posted | src/creators/folder_creator.py:206-226 | the attempts' effects only append requests |
| FolderCreator.Finished | src/creators/folder_creator.py:228-240 | caching the answer or logging the failure sends nothing and keeps the hierarchy cache |
| FolderCreator.EnsuredFolder | src/creators/folder_creator.py:292-329 | ensuring a folder only appends requests and keeps the hierarchy cache |
| FolderCreator.Uncached | src/creators/folder_creator.py:303-329 | past the cache lookup, ensuring only appends requests |
| FolderCreator.CreateMissing | src/creators/folder_creator.py:319-324 | marking the folder missing and creating it only appends requests |
| FolderCreator.EnsuredFromCache | src/creators/folder_creator.py:297-301 | a non-zero cache hit is returned without any request and without changing anything |
| FolderCreator.WalkFolders | src/creators/folder_creator.py:350-359 | the level loop only appends requests; a walk that did not fail ends under a non-zero folder |
| FolderCreator.PathKey | src/creators/folder_creator.py:344 | `'>'.join` of the levels' comparison keys, the key of a whole path; HierarchyRemembersPath and HierarchyAgain prove a walked path is found again under it |
| FolderCreator.WantsFinal | src/creators/folder_creator.py:368 | the final folder is wanted when there are no levels or the last level's key differs from the title's; FinalFolder proves nothing is done otherwise |
| FolderCreator.FinalFolder | src/creators/folder_creator.py:366-375 | when the last level is the title again nothing is done and the parent is returned; otherwise the result is the new folder's non-zero ID or the parent |
| FolderCreator.FolderHierarchy | src/creators/folder_creator.py:331-380 | no levels and no title give 0 with nothing done; a remembered path goes straight to the final folder; a failed level gives 0 |
| FolderCreator.HierarchyRemembersPath | src/creators/folder_creator.py:361-364 | a path walked to the end is remembered with the last level's ID |
| FolderCreator.HierarchyAgain | src/creators/folder_creator.py:343-348 | asking again for that hierarchy skips the levels and starts the final step under the remembered ID |
| FolderCreator.FolderHierarchyAsWrittenFails | src/creators/folder_creator.py:367-380 | as written, the three-argument `normalize_folder_name` call raises `TypeError`, so every call returns 0 and changes nothing |
| FolderCreator.NormalizeFolderNameAsCalled | src/creators/folder_creator.py:367 | the three-argument call of the one-parameter `normalize_folder_name` raises `TypeError`; FolderHierarchyAsWrittenFails proves what that costs |
| FolderCreator.FolderHierarchyAsWritten | src/creators/folder_creator.py:331-380 | `create_folder_hierarchy` as written: with anything to create, the `TypeError` is caught and 0 returned with nothing changed; FolderHierarchyAsWrittenFails and ArityDefectShown prove it |
| FolderCreator.ArityDefectShown | src/creators/folder_creator.py:367-373 | with no levels and the final folder cached at the site root, the intended walk returns the cached ID and the code as written returns 0 |
| FolderCreator.RetryRoundRemaining | src/creators/folder_creator.py:403-428 | an entry is kept exactly when it had been tried fewer than two times and the new attempt failed; it is kept with its raised count |
| FolderCreator.Bumped | src/creators/folder_creator.py:410 | the entry after `error.retry_count += 1`; RetryRoundRemaining proves every kept entry is a bumped one |
| FolderCreator.RetryRound | src/creators/folder_creator.py:382-444 | `retry_failed_folders` over the log: which titles are recreated and which entries kept; RetryRoundRemaining, RetryRoundSuccessful and RetryRoundBounds prove both |
| FolderCreator.RetryRoundSuccessful | src/creators/folder_creator.py:403-422 | a title is reported recreated exactly when one of its entries, tried fewer than three times, succeeded |
| FolderCreator.RetryRoundBounds | src/creators/folder_creator.py:403-428 | every kept entry is below three tries, and no entry gives more than one outcome |
| FolderCreator.RetryRoundAsWrittenFails | src/creators/folder_creator.py:446-462 | as written nothing is ever recreated, and only entries tried fewer than two times survive |
| FolderCreator.RetryRoundAsWritten | src/creators/folder_creator.py:446-462 | the round with `_retry_create_folder` always failing, since `create_folder` raises `TypeError`; RetryRoundAsWrittenFails proves nothing is recreated |
| FolderCreator.FolderCreatorState.constructor | src/creators/folder_creator.py:15-35 | the caches, the hierarchy cache, the log and the requests start empty |
| FolderCreator.FolderCreatorState.CacheFolderId | src/creators/folder_creator.py:137-161 | the four caches learn the folder and nothing else changes |
| FolderCreator.FolderCreatorState.GetCachedFolderId | src/creators/folder_creator.py:163-183 | the exact title, then the comparison key, then the parent's contents are consulted |
| FolderCreator.FolderCreatorState.FetchAndCacheParentFolders | src/creators/folder_creator.py:242-290 | the listing loop computes `FetchParent`: each folder is cached as it arrives, the contents cached only when the listing completes |
| FolderCreator.FolderCreatorState.CreateFolder | src/creators/folder_creator.py:185-240 | the new state and ID are those of `NewFolder` |
| FolderCreator.FolderCreatorState.CreateNamed | src/creators/folder_creator.py:198-240 | the retried creation updates the state as `Created` specifies |
| FolderCreator.FolderCreatorState.FinishCreate | src/creators/folder_creator.py:228-240 | the end of `create_folder` updates the state as `Finished` specifies |
| FolderCreator.FolderCreatorState.RecordAttempts | src/creators/folder_creator.py:206-226 | the attempts' requests and log entries are those `Posted` specifies |
| FolderCreator.FolderCreatorState.EnsureFolderExists | src/creators/folder_creator.py:292-329 | the new state and ID are those of `EnsuredFolder` |
| FolderCreator.FolderCreatorState.EnsureUncached | src/creators/folder_creator.py:303-329 | past the lookup, the state and ID are those of `Uncached` |
| FolderCreator.FolderCreatorState.CreateFinalFolder | src/creators/folder_creator.py:366-375 | the final step computes `FinalFolder` |
| FolderCreator.FolderCreatorState.CreateFolderHierarchy | src/creators/folder_creator.py:331-380 | the hierarchy walk computes `FolderHierarchy` |
| FolderCreator.FolderCreatorState.RetryFailedFolders | src/creators/folder_creator.py:382-444 | the log keeps exactly the entries `RetryRound` keeps, and the recreated titles are returned |
| WebContentCache.ContentCache.constructor | src/cache/web_content_cache.py:4-18 | all nine containers start empty, so the invariant "failed implies processed" holds |
| WebContentCache.ContentCache.AddContent | src/cache/web_content_cache.py:20-24 | every title equal in lower case now finds the ID, every other title finds what it found before, and no other container changes |
| WebContentCache.ContentCache.AddPage | src/cache/web_content_cache.py:26-30 | as for contents, on the page cache |
| WebContentCache.ContentCache.AddUrl | src/cache/web_content_cache.py:32-37 | the URL maps to its migrated form and counts as processed; nothing else changes |
| WebContentCache.ContentCache.AddFolder | src/cache/web_content_cache.py:39-43 | the hierarchy key finds the folder ID; nothing else changes |
| WebContentCache.ContentCache.AddDocument | src/cache/web_content_cache.py:45-54 | the description is always found by file name, and by ID only when it has an `id` |
| WebContentCache.ContentCache.MarkProcessed | src/cache/web_content_cache.py:56-60 | the URL is processed; nothing else changes |
| WebContentCache.ContentCache.MarkFailed | src/cache/web_content_cache.py:62-67 | the URL is failed and processed, keeping the invariant |
| WebContentCache.ContentCache.IncrementRetry | src/cache/web_content_cache.py:69-75 | the count becomes the previous count (0 when absent) plus one, and is returned |
| WebContentCache.ContentCache.ClearRetries | src/cache/web_content_cache.py:77-78 | the URL's count reads 0 again, even when it had none |
| WebContentCache.ContentCache.ClearAll | src/cache/web_content_cache.py:80-90 | every container is emptied |
| WebContentCache.ContentCache.GetContent | src/cache/web_content_cache.py:23-24 | the content ID stored under the lower-cased title; AddContent proves which titles find a new ID |
| WebContentCache.ContentCache.GetPage | src/cache/web_content_cache.py:29-30 | the page ID stored under the lower-cased title; AddPage proves which titles find a new ID |
| WebContentCache.ContentCache.GetUrl | src/cache/web_content_cache.py:36-37 | the migrated form stored for a URL; AddUrl proves it is found afterwards |
| WebContentCache.ContentCache.IsProcessed | src/cache/web_content_cache.py:59-60 | membership in the processed URLs; AddUrl, MarkProcessed and MarkFailed prove when it becomes true |
| WebContentCache.ContentCache.IsFailed | src/cache/web_content_cache.py:66-67 | membership in the failed URLs; MarkFailed proves when it becomes true, and the invariant that a failed URL is processed |
| WebContentCache.ContentCache.GetFolder | src/cache/web_content_cache.py:42-43 | the folder ID stored under a hierarchy key; AddFolder proves it is found afterwards |
| WebContentCache.ContentCache.GetDocumentByFilename | src/cache/web_content_cache.py:50-51 | the description stored under a file name; AddDocument proves it is found afterwards |
| WebContentCache.ContentCache.GetDocumentById | src/cache/web_content_cache.py:53-54 | the description stored under a document ID; AddDocument proves it is found by ID only when it has one |
| WebContentCache.ContentCache.GetRetryCount | src/cache/web_content_cache.py:74-75 | the retry count of a URL, 0 when it was never retried; IncrementRetry and ClearRetries prove how it moves |
| DocumentCache.WithUrlMapping | src/cache/document_cache.py:9-11 | the URL maps to the given value, even `None`, and is processed; other URLs, the failed set and the file names are unchanged; the invariant is kept |
| DocumentCache.ValidCache | src/cache/document_cache.py:9-27 | the invariant every operation keeps: each failed URL is also processed |
| DocumentCache.ByUrl | src/cache/document_cache.py:16-17 | `get_by_url`: the mapping, `None` both for an unseen URL and for one mapped to `None`; ClaimedUrl proves a claimed URL reads `None` |
| DocumentCache.ByFilename | src/cache/document_cache.py:19-20 | `get_by_filename`: the record stored for the file name, or `None` |
| DocumentCache.WithFilenameMapping | src/cache/document_cache.py:13-14 | the file name finds the new record, the last stored wins; nothing else changes |
| DocumentCache.WithFailed | src/cache/document_cache.py:25-27 | the URL is failed and processed, the invariant is kept, and the mappings are unchanged |
| DocumentCache.EmptyCacheFindsNothing | src/cache/document_cache.py:2-7 | a new cache finds nothing and satisfies the invariant |
| DocumentCache.ClaimedUrl | src/cache/document_cache.py:9-17 | a URL mapped to `None` is looked up as `None` yet counts as processed |
| DocumentCache.DocumentCache.constructor | src/cache/document_cache.py:2-7 | the cache starts empty |
| DocumentCache.DocumentCache.GetByUrl | src/cache/document_cache.py:16-17 | `get_by_url` on the cache's current contents |
| DocumentCache.DocumentCache.GetByFilename | src/cache/document_cache.py:19-20 | `get_by_filename` on the cache's current contents |
| DocumentCache.DocumentCache.IsProcessed | src/cache/document_cache.py:22-23 | `is_processed`: the URL is among the processed ones |
| DocumentCache.DocumentCache.IsFailed | src/cache/document_cache.py:29-30 | `is_failed`: the URL is among the failed ones |
| DocumentCache.DocumentCache.AddUrlMapping | src/cache/document_cache.py:9-11 | the new contents are `WithUrlMapping` of the old |
| DocumentCache.DocumentCache.AddFilenameMapping | src/cache/document_cache.py:13-14 | the new contents are `WithFilenameMapping` of the old |
| DocumentCache.DocumentCache.MarkFailed | src/cache/document_cache.py:25-27 | the new contents are `WithFailed` of the old |
| DocumentCreator.Lookup | src/creators/document_creator.py:24-43 | a found value is stored under the key; nothing is found only when no entry has the key |
| DocumentCreator.FirstKeyFor | src/creators/document_creator.py:236-238 | the first entry, in dictionary order, whose value is the type; none when no entry has it |
| DocumentCreator.LookupEntry | src/creators/document_creator.py:24-43 | in a table with distinct keys, an entry's key finds that entry's value |
| DocumentCreator.MimeKeysDistinct | src/creators/document_creator.py:24-43 | no extension occurs twice in `SUPPORTED_MIME_TYPES` |
| DocumentCreator.MimeKeysListed | src/creators/document_creator.py:24-43 | every extension in the table is a dot followed by lower-case ASCII letters |
| DocumentCreator.ListedExtensionLower | src/creators/document_creator.py:24-43 | a listed extension is its own lower case and has no second dot |
| DocumentCreator.AfterLastDot | src/creators/document_creator.py:119 | the text after the last dot has no dot; there is none exactly when the name has no dot |
| DocumentCreator.LastDotOf | src/creators/document_creator.py:119 | the last dot of `name.ext` is the one before `ext` |
| DocumentCreator.MimeTypeByExtension | src/creators/document_creator.py:117-120 | the type is the table entry for the lower-cased text after the last dot, or `application/octet-stream` |
| DocumentCreator.GetMimeType | src/creators/document_creator.py:117-120 | `_get_mime_type`: the table entry for `.` and the lower-cased text after the last dot, or `application/octet-stream`; MimeTypeByExtension, MimeTypeWithoutDot and MimeTypeOfListed prove its cases |
| DocumentCreator.MimeTypeWithoutDot | src/creators/document_creator.py:119-120 | a name without a dot gets `application/octet-stream` |
| DocumentCreator.MimeTypeOfListed | src/creators/document_creator.py:117-120 | a name ending in a listed extension gets that extension's type |
| DocumentCreator.ExtensionForContentType | src/creators/document_creator.py:234-239 | a listed type gives the first extension with that exact type; an unlisted one `.html` when it mentions `html`, else `.txt` |
| DocumentCreator.ContentTypeRoundTrip | src/creators/document_creator.py:234-239 | the extension chosen for a listed type maps back to that type |
| DocumentCreator.AnyOccursIff | src/creators/document_creator.py:296-297 | `any(p in s for p in ps)` holds exactly when some pattern occurs |
| DocumentCreator.IsValidFileUrlRules | src/creators/document_creator.py:281-299 | a URL is a file to migrate exactly when it is non-empty, does not mention `sinj` in any case, and its lower case holds a WordPress upload path or an image extension |
| DocumentCreator.IsValidFileUrl | src/creators/document_creator.py:281-299 | `_is_valid_file_url`: a non-empty URL without `sinj` in its lower case, whose lower case holds a WordPress upload path or an image extension; IsValidFileUrlRules states the rule pattern by pattern |
| DocumentCreator.Truncated | src/creators/document_creator.py:319 | `s[:n]` is a prefix of at most n characters |
| DocumentCreator.ReplacedAllKeepsOut | src/creators/document_creator.py:311-312 | the replacements introduce no character other than `_` |
| DocumentCreator.ReplacedAll | src/creators/document_creator.py:311-312 | each invalid character replaced by `_`, in order; ReplacedAllRemoves proves none survives |
| DocumentCreator.ReplacedAllRemoves | src/creators/document_creator.py:311-312 | no replaced character survives the loop |
| DocumentCreator.StripAroundLastDotKeepsOut | src/creators/document_creator.py:315-317 | the strip around the last dot introduces no character other than `.` |
| DocumentCreator.StripAroundLastDot | src/creators/document_creator.py:315-317 | the name and the extension around the last dot each stripped; a name without a dot is kept |
| DocumentCreator.TruncatedKeepsOut | src/creators/document_creator.py:319 | truncation introduces no character |
| DocumentCreator.InvalidCharsExclude | src/creators/document_creator.py:310 | `_` and `.` are not among the replaced characters |
| DocumentCreator.SanitizedIsSafe | src/creators/document_creator.py:301-319 | a sanitised name holds none of `<>:"/\|?*` and has at most 240 characters |
| DocumentCreator.Sanitized | src/creators/document_creator.py:301-319 | `_sanitize_filename`: unquoted, stripped, invalid characters replaced, stripped around the last dot and cut to 240 characters; SanitizedIsSafe proves the result safe |
| DocumentCreator.SanitizeFilename | src/creators/document_creator.py:301-319 | the method computes `Sanitized`, so its result is safe and at most 240 characters long |
| DocumentCreator.StripLastDotParts | src/creators/document_creator.py:315-317 | the `rsplit('.', 1)` step strips both sides of the last dot, or keeps a name without a dot |
| DocumentCreator.ReplaceInvalid | src/creators/document_creator.py:310-312 | the loop replaces each invalid character by `_`, in order |
| DocumentCreator.NormalizedNameParts | src/creators/document_creator.py:213-224 | only the extension after the last dot is changed: lower-cased, then folded |
| DocumentCreator.MappedExtension | src/creators/document_creator.py:217-223 | the extension mapping: `docx`, `xlsx` and `pptx` become `doc`, `xls` and `ppt`, every other extension is kept |
| DocumentCreator.NormalizedName | src/creators/document_creator.py:213-224 | `name.ext` after `rsplit('.', 1)`, with the extension lower-cased and mapped; NormalizedNameParts proves only the extension changes |
| DocumentCreator.NormalizedOfficeNames | src/creators/document_creator.py:217-223 | `docx`, `xlsx` and `pptx`, in any case, become `doc`, `xls` and `ppt` |
| DocumentCreator.LastSegment | src/creators/document_creator.py:202 | the last segment after stripping trailing slashes holds no slash |
| DocumentCreator.HostLabel | src/creators/document_creator.py:207 | the first label of the URL's host name, or `download` without one |
| DocumentCreator.ExtractFilenameWithExtension | src/creators/document_creator.py:197-227 | a URL whose last path segment has an extension gives that name, extension normalised, sanitised |
| DocumentCreator.ExtractFilename | src/creators/document_creator.py:197-232 | `_extract_filename`: the fallback `document_{timestamp}.html` where parsing fails; a host-label name with the content type's extension when the last segment has no dot; otherwise the segment's name normalised; every name then sanitised; ExtractFilenameWithExtension proves the last case |
| DocumentCreator.FindSub | src/creators/document_creator.py:252 | the first position where the text occurs, found exactly when it occurs |
| DocumentCreator.BeforeFirst | src/creators/document_creator.py:252 | `split(m)[0]` is a prefix of the text |
| DocumentCreator.FindSubAfterPrefix | src/creators/document_creator.py:252 | an occurrence cannot start inside a prefix lacking its first character |
| DocumentCreator.FirstExtensionIn | src/creators/document_creator.py:246-250 | the first table extension, in order, that occurs in the lower-cased URL; none when none does |
| DocumentCreator.CleanDocumentUrl | src/creators/document_creator.py:241-256 | an empty URL, or one holding no listed extension, is returned unchanged |
| DocumentCreator.LowerKeepsDots | src/creators/document_creator.py:250 | lower-casing introduces no dot |
| DocumentCreator.LowerAppend | src/creators/document_creator.py:250 | lower case distributes over concatenation |
| DocumentCreator.LowerCutAt | src/creators/document_creator.py:250-252 | cutting a URL at an occurrence found in its lower-cased form, then adding the extension, is a prefix of the lower-cased URL |
| DocumentCreator.CleanDocxToDoc | src/creators/document_creator.py:248-254 | `.doc` precedes `.docx` in the table, so `name.docx` is cut to `name.doc` |
| DocumentCreator.CleanIntendedIsPrefix | src/creators/document_creator.py:241-256 | the intended trimming never lengthens the URL, its lower case is a prefix of the URL's lower case, and a URL without a listed extension is unchanged |
| DocumentCreator.CleanDocumentUrlIntended | src/creators/document_creator.py:241-256 | the intended trimming: cut the URL after the first occurrence, in any case, of the first listed extension it holds, written in lower case; CleanIntendedIsPrefix proves it a prefix in lower case |
| DocumentCreator.CleanUpperCaseExtensionAsWritten | src/creators/document_creator.py:250-252 | as written `.PDF` becomes `.PDF.pdf`; the intended trimming gives `.pdf` |
| DocumentCreator.NameAndExt | src/creators/document_creator.py:326 | `filename.rsplit('.', 1)`: the name, a dot and the extension give back the file name and the extension holds no dot; a name without a dot gives itself and `''` |
| DocumentCreator.PossibleNames | src/creators/document_creator.py:325-334 | `possible_names`: four variants, the sanitised name itself first, then the `.docx`, `.xlsx` and `.pptx` names for `.doc`, `.xls` and `.ppt` |
| DocumentCreator.FirstCached | src/creators/document_creator.py:337-341 | the first variant, in order, that `get_by_filename` finds; none is found only when no variant is cached |
| DocumentCreator.FirstListed | src/creators/document_creator.py:359-369 | the first variant, in order, for which the folder's search gives a document; none only when no variant is listed |
| DocumentCreator.WithNames | src/creators/document_creator.py:367-368 | `add_filename_mapping` for every variant: each of them maps to the document, every other name keeps its record, and nothing else in the cache changes |
| DocumentCreator.FindIn | src/creators/document_creator.py:336-372 | the search over the variants: the cache first, then the listing with every variant recorded; it never changes the URL mapping or the processed and failed URLs; FindInFromCache, FindInRecordsVariants, FindInNotFound and FindInAgain prove its cases |
| DocumentCreator.NamesOf | src/creators/document_creator.py:325-334 | the four variants searched for a file name, the first being its sanitised form |
| DocumentCreator.FindExisting | src/creators/document_creator.py:321-376 | `_find_existing_document`: the name sanitised again, then its variants searched; only the filename table changes; FindExistingAgain proves what a second search gives |
| DocumentCreator.FindInFromCache | src/creators/document_creator.py:337-341 | the first cached variant's record is returned, the cache is unchanged and the listing plays no part |
| DocumentCreator.FindInRecordsVariants | src/creators/document_creator.py:359-369 | with no variant cached, the first listed variant's document is returned and afterwards stored under every variant, every other name keeping its record |
| DocumentCreator.FindInNotFound | src/creators/document_creator.py:371-372 | a variant neither cached nor listed: nothing found, nothing changed |
| DocumentCreator.FindInAgain | src/creators/document_creator.py:337-369 | a second search over the same variants after a hit answers from the cache with the same document, changes nothing and needs no listing |
| DocumentCreator.FindExistingAgain | src/creators/document_creator.py:321-376 | calling `_find_existing_document` twice with one name after a hit gives the same answer and the same cache |
| DocumentCreator.FindInMissTwice | src/creators/document_creator.py:336-372 | a search that finds nothing leaves the cache as it was, so a second one finds nothing either |
| DocumentCreator.FindExistingDocument | src/creators/document_creator.py:321-376 | the method returns the record and leaves the cache exactly as `FindExisting` describes |
| DocumentCreator.SearchVariants | src/creators/document_creator.py:336-372 | the three loops (cache lookups, listing lookups, recording every variant) return the record and leave the cache exactly as `FindIn` describes |
| DocumentCreator.ExistingUrl | src/creators/document_creator.py:418-419 | `existing_doc.get('contentUrl')` when the document and its URL are truthy; the cases are proved through ExistingDocumentReused and ConflictRepeatsSearch |
| DocumentCreator.FriendlyUrl | src/creators/document_creator.py:450-452 | the cleaned `contentUrl` of an uploaded document with an ID, else `""`; UploadedMigrates proves it non-empty for a non-empty URL |
| DocumentCreator.AttemptFilename | src/creators/document_creator.py:412 | the file name: `_extract_filename` then `_sanitize_filename`; SanitizedIsSafe proves it safe |
| DocumentCreator.AttemptRun | src/creators/document_creator.py:404-485 | the `try` body past the claim: a refused download raises and changes nothing; a downloaded file goes on as `AfterDownload`, with the variants of its name and of that name with `%20` for its spaces. The URL mapping and the processed and failed URLs are never changed by it |
| DocumentCreator.AfterDownload | src/creators/document_creator.py:416-483 | the search first, its URL reused when found; a 200/201 upload with an ID migrates under its friendly URL or ends without one; a 409 searches the same name and the `%20` name before raising; any other status raises; only the filename table changes |
| DocumentCreator.RefusedDownloadRaises | src/creators/document_creator.py:404-410 | a refused download raises and leaves the cache as it was |
| DocumentCreator.ExistingDocumentReused | src/creators/document_creator.py:416-422 | a document found before the upload is reused whatever the upload would answer, with the cache the search leaves |
| DocumentCreator.ConflictRepeatsSearch | src/creators/document_creator.py:457-479 | on a 409 the repeated search for the same name gives the first search's answer, so only the `%20` name can still find a document; otherwise the attempt raises |
| DocumentCreator.UploadedMigrates | src/creators/document_creator.py:447-455 | an upload answering an ID and a non-empty `contentUrl` always migrates the document |
| DocumentCreator.CleanDocumentUrlNonEmpty | src/creators/document_creator.py:241-256 | `_clean_document_url` never empties a non-empty URL |
| DocumentCreator.AttemptOf | src/creators/document_creator.py:400-485 | the attempts of one `migrate_document` call: attempt `k` on a claimed cache runs as `AttemptRun` on the `k`-th replies; AttemptOfKeepsUrls proves they keep the URL data |
| DocumentCreator.AttemptOfKeepsUrls | src/creators/document_creator.py:400-485 | no attempt changes the URL mapping or the processed and failed URLs; only the filename table |
| DocumentCreator.DownloadThenSleep | src/creators/document_creator.py:491 | a download then a pause count as one download |
| DocumentCreator.Downloads | src/creators/document_creator.py:384-498 | how many downloads a series of events holds |
| DocumentCreator.DownloadsAppend | src/creators/document_creator.py:384-498 | downloads of two runs of events add up |
| DocumentCreator.MigrateRejectsInvalidUrl | src/creators/document_creator.py:386-388 | a URL that is not a file to migrate gives `None` with nothing downloaded or cached, whatever the attempts |
| DocumentCreator.HasMapping | src/creators/document_creator.py:391-394 | the cache test `if cached_url:`: a mapping that is not `None` and not empty |
| DocumentCreator.MigrateFrom | src/creators/document_creator.py:384-498 | the retry loop of `migrate_document` as written, from a given retry count and pause, for given attempts: the URL checks, the claim, the attempt and its outcome, with the cache each attempt leaves; MigrateDownloadsAtMostOnce proves it downloads at most once |
| DocumentCreator.MigrateWith | src/creators/document_creator.py:384-498 | the loop from no retries and a pause of one second |
| DocumentCreator.Migrate | src/creators/document_creator.py:378-498 | `migrate_document` as written, its attempts reading and filling the filename table; MigrateRejectsInvalidUrl, MigrateUsesCache, MigrateSkipsProcessed, MigrateReusesExisting, MigrateRefusedLeavesClaim and MigrateKeepsCacheValid prove its cases |
| DocumentCreator.MigrateUsesCache | src/creators/document_creator.py:391-394 | a URL with a non-empty mapping is answered from the cache |
| DocumentCreator.MigrateSkipsProcessed | src/creators/document_creator.py:396-398 | a processed URL without a usable mapping gives `None` and changes nothing |
| DocumentCreator.MigrateReusesExisting | src/creators/document_creator.py:400-422 | a fresh URL whose download finds a document under a name variant is mapped to that document's URL after one download, with the filename table the search leaves |
| DocumentCreator.MigrateKeepsCacheValid | src/creators/document_creator.py:384-498 | every run keeps failed URLs among the processed ones |
| DocumentCreator.MigrateDownloadsAtMostOnce | src/creators/document_creator.py:396-498 | as written the URL is downloaded at most once and never marked failed; after a first failure the run pauses once and gives `None`, keeping the claim and the filename table the failed attempt left |
| DocumentCreator.MigrateRefusedLeavesClaim | src/creators/document_creator.py:400-410 | a fresh URL whose first download is refused gives `None` after one download and one pause, the cache holding only the claim |
| DocumentCreator.RetryDownloadsOutcome | src/creators/document_creator.py:384-498 | with the intended retries the first attempt that does not fail decides the run, after one download per earlier failure, and three failures mark the URL failed |
| DocumentCreator.RaisedUpTo | src/creators/document_creator.py:487-498 | the cache after a stretch of attempts that all raised, each on the cache the previous one left |
| DocumentCreator.RetryDownloads | src/creators/document_creator.py:400-498 | the intended retries on a claimed URL: each failure pauses and downloads again on the cache it left, and the third marks the URL failed |
| DocumentCreator.IntendedWith | src/creators/document_creator.py:384-498 | the intended loop for given attempts: check and claim once, then retry the attempt |
| DocumentCreator.MigrateIntended | src/creators/document_creator.py:384-498 | the intended `migrate_document` on the same replies and listing; MigrateRetryDiscrepancy contrasts it with the code as written |
| DocumentCreator.MigrateRetryDiscrepancy | src/creators/document_creator.py:384-498 | on a fresh URL whose first attempt fails and second succeeds, the code as written gives `None` while the intended run returns and caches the second URL |
| DocumentCreator.MigrateRetryDiscrepancyUploaded | src/creators/document_creator.py:400-455 | the same on concrete replies, for any attempts that run as `AttemptRun` on them: a refused first download, then an upload answering an ID and a URL |
| DocumentCreator.MigrateRetryDiscrepancyReplies | src/creators/document_creator.py:378-498 | on those replies `migrate_document` as written gives `None` while the intended version gives a URL |
| DocumentCreator.DocumentCreatorState.constructor | src/creators/document_creator.py:45-55 | the creator starts with an empty cache and no events |
| DocumentCreator.DocumentCreatorState.RunAttempt | src/creators/document_creator.py:404-485 | one attempt's `try` body leaves the outcome and the cache, filename table included, that `AttemptRun` describes |
| DocumentCreator.DocumentCreatorState.RunRetry | src/creators/document_creator.py:404-485 | attempt `k` of the loop, as the attempts of `AttemptOf` describe it |
| DocumentCreator.DocumentCreatorState.Upload | src/creators/document_creator.py:416-483 | the search, the upload and the conflict searches leave the outcome and the cache `AfterDownload` describes |
| DocumentCreator.DocumentCreatorState.MigrateDocument | src/creators/document_creator.py:378-498 | the loop as written changes the cache, the filename table included, and records the events exactly as `Migrate` describes, and returns its result |
| DocumentCreator.DocumentCreatorState.Pass | src/creators/document_creator.py:386-498 | one pass of the loop: the checks, the claim and the attempt. A pass that ends the loop gives the result, cache and events `MigrateFrom` describes. A pass that raises before the last attempt records the download and the pause, and `MigrateFrom` goes on from the next retry count with the pause doubled |
| DocumentCreator.DocumentCreatorState.RetryLoop | src/creators/document_creator.py:384-498 | the `while` loop, over any attempts that run as `AttemptRun`, changes the cache and records the events as `MigrateWith` describes |
| ContentUpdate.CleanUrlDropsFragment | src/updaters/content_update.py:292-294 | everything from the first `#` on is dropped before any other step |
| ContentUpdate.CleanUrl | src/updaters/content_update.py:292-318 | `_clean_url`: the URL cut at its first `#`, then cleaned by the later steps; CleanUrlDropsFragment, CleanUrlKeepsNonHttp, CleanUrlSameDomain and CleanUrlOtherDomain prove its cases |
| ContentUpdate.CleanRest | src/updaters/content_update.py:296-318 | the steps after the cut: empty, special and non-`http(s)` links are kept, a link that does not parse is kept, a same-domain link becomes its path and query, any other is kept |
| ContentUpdate.SpecialLink | src/updaters/content_update.py:297 | the links returned untouched: `mailto:`, `tel:`, `javascript:` and `#` |
| ContentUpdate.IsHttpUrl | src/updaters/content_update.py:301 | the test `url.startswith(('http://', 'https://'))` |
| ContentUpdate.BareDomain | src/updaters/content_update.py:310 | the base domain with every `https://`, then every `http://`, removed |
| ContentUpdate.SameDomain | src/updaters/content_update.py:306-310 | the same-domain test: `scheme://netloc` is the base domain, or the netloc is the bare base domain |
| ContentUpdate.Relative | src/updaters/content_update.py:312-315 | the path, followed by `?query` when the query is not empty |
| ContentUpdate.CleanUrlNoFragment | src/updaters/content_update.py:294-318 | without a `#`, the cleaning is that of the steps after the split |
| ContentUpdate.HostUrlNoHash | src/updaters/content_update.py:294 | an `http(s)` URL made of a host and a rest without `#` holds no `#` |
| ContentUpdate.CleanUrlKeepsNonHttp | src/updaters/content_update.py:296-302 | an empty, `mailto:`, `tel:`, `javascript:`, `#` or relative link comes back unchanged |
| ContentUpdate.HttpPrefix | src/updaters/content_update.py:297-302 | a URL starting `http://` or `https://` passes both early tests |
| ContentUpdate.CleanUrlSameDomain | src/updaters/content_update.py:305-315 | a link whose `scheme://host` is the base domain, or whose host is the bare base domain, becomes its path plus `?query` when the query is not empty |
| ContentUpdate.CleanUrlOtherDomain | src/updaters/content_update.py:305-318 | a link to another domain is returned whole |
| ContentUpdate.CategoryList | src/updaters/content_update.py:547-553 | no more categories come out than parts went in |
| ContentUpdate.CleanCategory | src/updaters/content_update.py:548-551 | one part trimmed, and then without one leading `- ` and trimmed again; CleanCategoryIsClean proves the result clean |
| ContentUpdate.Categories | src/updaters/content_update.py:533-553 | `_process_categories`: no categories for an empty cell or a lone `-`, otherwise the cleaned non-empty comma parts in order; CategoriesWellFormed and CategoriesRoundTrip prove their shape and the round trip |
| ContentUpdate.ProcessCategories | src/updaters/content_update.py:533-553 | the method returns `Categories` of the cell |
| ContentUpdate.CleanParts | src/updaters/content_update.py:547-553 | the loop keeps, in order, each part trimmed and stripped of one leading `- `, when not empty |
| ContentUpdate.CategoryListSnoc | src/updaters/content_update.py:547-552 | one more part adds its cleaned form at the end, when it is not empty |
| ContentUpdate.CategoryListAppend | src/updaters/content_update.py:547-553 | the cleaning keeps the order of the parts: the list of a concatenation is the concatenation of the lists |
| ContentUpdate.CleanCategoryIsClean | src/updaters/content_update.py:548-551 | a cleaned comma-free part, when not empty, is trimmed at both ends and comma-free |
| ContentUpdate.CleanName | src/updaters/content_update.py:547-553 | what a kept category looks like: non-empty, trimmed at both ends, without a comma; CategoryListClean and CategoriesWellFormed prove every kept category is one |
| ContentUpdate.CategoryListClean | src/updaters/content_update.py:547-553 | every category kept is non-empty, trimmed and comma-free |
| ContentUpdate.CategoriesWellFormed | src/updaters/content_update.py:533-553 | every category of a cell is non-empty, trimmed and comma-free, and there are at most one more than the cell's commas |
| ContentUpdate.CategoryListIdentity | src/updaters/content_update.py:547-553 | clean names that do not start with `- ` come through unchanged |
| ContentUpdate.SplitJoinParts | src/updaters/content_update.py:547 | `split(',')` undoes a comma join of comma-free parts |
| ContentUpdate.JoinEnds | src/updaters/content_update.py:543 | a comma join of non-empty parts starts with the first part's first character, ends with the last part's last character, and holds a comma when there are two parts or more |
| ContentUpdate.JoinNotDash | src/updaters/content_update.py:543-544 | a comma join of clean names other than the lone `-` passes the empty-or-dash test |
| ContentUpdate.CategoriesRoundTrip | src/updaters/content_update.py:533-553 | processing the comma join of clean names that do not start with `- ` gives the names back, the lone `-` excepted |
| ContentUpdate.CategoriesOfDash | src/updaters/content_update.py:543-544 | an empty cell or a lone `-` gives no categories |
| ContentUpdate.MappedIds | src/updaters/content_update.py:568-573 | no more IDs than names, and every ID is a value of the mapping |
| ContentUpdate.GetCategoryIds | src/updaters/content_update.py:555-573 | the loop returns `MappedIds`: the mapped IDs of the names, in order |
| ContentUpdate.MappedIdsAppend | src/updaters/content_update.py:568-573 | the IDs keep the order of the names |
| ContentUpdate.MappedIdsAllKnown | src/updaters/content_update.py:568-573 | when every name is mapped there is one ID per name, at the same position |
| ContentUpdate.MappedIdsUnknown | src/updaters/content_update.py:568-573 | names missing from the mapping give no IDs |
| ContentUpdate.ExtractArticleId | src/updaters/content_update.py:575-601 | the inner `id` of the nested shape, else the `id` of a dictionary, else `str()` of a string or integer; `None` for other values and whenever the value found is falsy |
| ContentUpdate.NestedId | src/updaters/content_update.py:588 | the nested shape `{'id': {'id': x, ...}, ...}` |
| ContentUpdate.ExtractIntegerId | src/updaters/content_update.py:595-596 | an integer always yields its decimal text, `0` included |
| ContentUpdate.ExtractNestedId | src/updaters/content_update.py:588-589 | the nested shape yields the inner value itself, not its text |
| ContentUpdate.ExtractAgain | src/updaters/content_update.py:575-601 | extracting again from an extracted string or integer gives its text: the result is already an ID |
| JournalPortlets.JournalEntries | src/creators/web_content_creator.py:419-430 | at most one portlet per tag, each with a non-empty ID and an empty article |
| JournalPortlets.ParsePortlets | src/creators/web_content_creator.py:414-439 | there is always at least one portlet, each with a non-empty ID and an empty article |
| JournalPortlets.JournalIdKept | src/creators/web_content_creator.py:425-426 | removing `p_p_id_` from a Journal Content tag ID leaves a text starting with `c`, never an empty one |
| JournalPortlets.JournalEntriesCount | src/creators/web_content_creator.py:419-430 | every Journal Content tag gives one portlet and no other tag does |
| JournalPortlets.CountJournalZero | src/creators/web_content_creator.py:420-422 | none are counted exactly when no tag ID has the Journal Content prefix |
| JournalPortlets.CountJournal | src/creators/web_content_creator.py:420-422 | the number of tag IDs that start with the Journal Content prefix; JournalEntriesCount, CountJournalZero and ParsePortletsCount prove it is the number of portlets parsed |
| JournalPortlets.ParsePortletsCount | src/creators/web_content_creator.py:414-439 | a page without Journal Content tags gets exactly the default portlet; otherwise one portlet per such tag |
| JournalPortlets.FirstExact | src/creators/web_content_creator.py:483-488 | the first item from k on that matches exactly, and no exact match before it; none when no item from k on matches |
| JournalPortlets.IdText | src/creators/web_content_creator.py:486 | `str(item.get('id'))`: the decimal text of the ID, or `None`; ExactMatch compares it with a numeric identifier |
| JournalPortlets.ExactMatch | src/creators/web_content_creator.py:486 | a listing entry matches exactly when a numeric identifier equals its ID text or the lower-cased title equals the lower-cased identifier; MatchPageRules proves the first such entry wins |
| JournalPortlets.PartialMatch | src/creators/web_content_creator.py:494 | the lower-cased title contains the lower-cased identifier; MatchPageRules proves it is tried only without an exact match |
| JournalPortlets.FirstPartial | src/creators/web_content_creator.py:491-495 | the first item from k on whose lower-cased title holds the term, and none before it; none when no item from k on does |
| JournalPortlets.MatchPageRules | src/creators/web_content_creator.py:456-498 | an exact match wins, the first one; a substring match is tried only for an identifier that fails `isdigit` (ASCII digits and `²`, `³`, `¹` pass it) and has no exact match |
| JournalPortlets.NumericNeedsExact | src/creators/web_content_creator.py:490-495 | a numeric identifier (`isdigit`, so `²`, `³` and `¹` count) finds only an exact match |
| JournalPortlets.SuperscriptNeedsExact | src/creators/web_content_creator.py:457-498 | the identifier `²` passes `isdigit`, so a page titled `x²` is not chosen as a substring match |
| JournalPortlets.MatchPage | src/creators/web_content_creator.py:483-498 | the entry `find_page_by_title_or_id` picks from the listing: the first exact match, else for a non-numeric identifier the first partial match; MatchPageRules and NumericNeedsExact prove it |
| JournalPortlets.RenderPath | src/creators/web_content_creator.py:500-507 | the path is the friendly URL without slashes at its ends, else the non-zero ID, and never empty or slash-ended |
| JournalPortlets.FindPage | src/creators/web_content_creator.py:447-526 | a page found always carries at least one portlet |
| JournalPortlets.FirstFree | src/creators/web_content_creator.py:535-538 | the first portlet from k on with an ID and no article, and no such portlet before it; none when there is none |
| JournalPortlets.JournalPortletInstance | src/creators/web_content_creator.py:528-552 | the first free portlet's ID; else the first portlet's ID when it has one; else the default ID; never empty |
| JournalPortlets.InstanceOfParsedPage | src/creators/web_content_creator.py:528-552 | on a parsed page the instance chosen is one of the page's own portlets |
| JournalPortlets.SelectPortlet | src/creators/web_content_creator.py:584-588 | an index past the end uses the first portlet; other indexes follow Python indexing, negative ones from the end; an index below minus the length fails |
| JournalPortlets.NormalizeDropsOneUnderscore | src/creators/web_content_creator.py:590-595 | an ID without `p_p_id_` loses one trailing `_`, if it has one, and nothing else |
| JournalPortlets.NormalizeKeepsLeadingPrefix | src/creators/web_content_creator.py:590-592 | an ID that starts with `p_p_id_` keeps that prefix |
| JournalPortlets.NormalizePortletId | src/creators/web_content_creator.py:589-595 | `p_p_id_` removed unless the ID starts with it, then one trailing `_` dropped; NormalizeDropsOneUnderscore and NormalizeKeepsLeadingPrefix prove both branches |
| JournalPortlets.ContentKey | src/creators/web_content_creator.py:597-598 | a dictionary's `key` entry, or the text of a string or integer |
| JournalPortlets.AssociationRequest | src/creators/web_content_creator.py:576-607 | no request without portlets; a request carries the page ID's text and the content's key |
| JournalPortlets.AssociationAttempt | src/creators/web_content_creator.py:609-614 | a 200 or 201 reply answers whether the body's status is `SUCCESS`; any other status is a plain error |
| JournalPortlets.AssociationAttempts | src/creators/web_content_creator.py:609-617 | the k-th association attempt answers with the k-th POST of the request; AssociateNoneExactly is stated with it |
| JournalPortlets.AssociateWithoutPortlets | src/creators/web_content_creator.py:566-581 | without a page or portlets the answer is `False`, whatever the server would reply |
| JournalPortlets.AssociateIndexFallback | src/creators/web_content_creator.py:584-586 | an index past the last portlet uses the first portlet's normalised ID |
| JournalPortlets.AssociateFirstReply | src/creators/web_content_creator.py:609-617 | a first reply of 200 or 201 decides the answer: `True` exactly when the body says `SUCCESS` |
| JournalPortlets.AssociateNoneExactly | src/creators/web_content_creator.py:609-617 | the answer is `None` exactly when the fourth attempt was rate-limited and the three before it failed without a client error |
| JournalPortlets.Associate | src/creators/web_content_creator.py:554-621 | `associate_content_with_page_portlet`: `False` without a page or portlets, else the retried POST's answer; AssociateWithoutPortlets, AssociateIndexFallback, AssociateFirstReply and AssociateNoneExactly prove its cases |
| WebContentCreator.IdKey | src/creators/web_content_creator.py:295-296 | the result dictionary holds exactly the keys `id` and `key`, with the given values |
| WebContentCreator.Text | src/creators/web_content_creator.py:296 | `str(v)`: the text of a scalar, or the display given for a list or dictionary; CachedResult uses it for the fallback key |
| WebContentCreator.CachedResult | src/creators/web_content_creator.py:289-296 | a cache hit answers with the cached value as its `id`, or fails when the reply raises |
| WebContentCreator.Enumerated | src/creators/web_content_creator.py:352-353 | the i-th result is associated with portlet index `from + i`, one association per result |
| WebContentCreator.EnumeratedAppend | src/creators/web_content_creator.py:352-353 | enumerating one more result appends its association with the next index |
| WebContentCreator.IdOf | src/creators/web_content_creator.py:361 | the ID of a created dictionary is its `id` entry; any other value is its own ID |
| WebContentCreator.CacheHitShortCuts | src/creators/web_content_creator.py:288-296 | a truthy cache entry answers at once: no other service matters and nothing is cached or associated |
| WebContentCreator.CacheHitKey | src/creators/web_content_creator.py:293-295 | a cache hit whose lookup answers 200 with a dictionary returns the cached value with that reply's key |
| WebContentCreator.NoFolderFails | src/creators/web_content_creator.py:303-310 | without a cache hit, folder ID 0 fails with `{"id": 0, "key": ""}` and leaves the cache alone |
| WebContentCreator.ExistingReturned | src/creators/web_content_creator.py:313-317 | content already in the folder is cached by its integer ID, associated once when there is a page, and returned |
| WebContentCreator.Dispatch | src/creators/web_content_creator.py:324-346 | a collapsible page goes to the collapsible creator, a mixed-only page to the mixed creator's first result, any other to the regular creator; a falsy answer fails and leaves the cache alone |
| WebContentCreator.Created | src/creators/web_content_creator.py:324-343 | the collapsible creator's answer, else the mixed creator's first result or `None`, else the regular creator's; Dispatch proves which creator answers |
| WebContentCreator.Results | src/creators/web_content_creator.py:333-338 | the mixed results, for a mixed page only; CreatedLinks proves each is associated |
| WebContentCreator.ProcessingFailureFails | src/creators/web_content_creator.py:320-322 | a failed processing step fails whatever the creators would answer |
| WebContentCreator.CreatedLinks | src/creators/web_content_creator.py:349-359 | with a page, mixed results are associated one by one with indices 0, 1, …; any other content once with index 0; without a page nothing is associated |
| WebContentCreator.Links | src/creators/web_content_creator.py:349-355 | one association per mixed result with its index, or one for the content with index 0; CreatedLinks proves the links a migration makes |
| WebContentCreator.CacheFrame | src/creators/web_content_creator.py:361 | only the entry of the lower-cased title can change |
| WebContentCreator.MigrateWith | src/creators/web_content_creator.py:284-368 | `migrate_content` with a choice of what the cache stores: cache hit, folder failure, existing content, processing failure, creation and association in that order; CacheHitShortCuts, NoFolderFails, ExistingReturned, Dispatch, ProcessingFailureFails, CreatedLinks and CacheFrame prove its branches |
| WebContentCreator.Migrate | src/creators/web_content_creator.py:361 | `migrate_content` as written, caching the created result itself; RegularFailureCached and CachedDictAsId prove what that costs |
| WebContentCreator.RegularFailureCached | src/creators/web_content_creator.py:341-346 | the regular creator's own failure dictionary is truthy, so it is cached like a created content |
| WebContentCreator.CachedDictAsId | src/creators/web_content_creator.py:289-296 | as written, after a regular creation the next migration of the title answers with the whole dictionary as its `id` |
| WebContentCreator.CachedIdIntended | src/creators/web_content_creator.py:289-296 | with the ID cached, the next migration of the title answers with the integer ID |
| WebContentCreator.MigrateIntended | src/creators/web_content_creator.py:361 | `migrate_content` caching the content's ID; CachedIdIntended and IntendedSameAnswer prove it answers correctly and changes nothing else |
| WebContentCreator.IntendedSameAnswer | src/creators/web_content_creator.py:284-368 | caching the ID instead changes no result and no association of a single call |
| WebContentCreator.ContentMigrator.constructor | src/creators/web_content_creator.py:33-48 | a new creator starts with an empty content cache |
| WebContentCreator.ContentMigrator.MigrateContent | src/creators/web_content_creator.py:284-368 | the method returns the result and associations of the migration and leaves the cache it prescribes |
| ParallelMigration.AppendFresh | src/creators/parallel_migration.py:172-182 | adding an item whose ID is new keeps the queued IDs distinct and adds exactly that ID |
| ParallelMigration.DropFirst | src/creators/parallel_migration.py:186-195 | removing the head of a queue keeps its IDs distinct and adds none |
| ParallelMigration.ItemId | src/creators/parallel_migration.py:205-212 | `_get_item_id`: `{url}_{title}` when both are present, else `article_{article_id}`, else the object identity; UrlTitleIdsCollide shows two different pages sharing one ID |
| ParallelMigration.MigrationQueue.constructor | src/creators/parallel_migration.py:159-163 | a new queue has three empty levels and no processed IDs |
| ParallelMigration.MigrationQueue.Put | src/creators/parallel_migration.py:165-182 | an item is added exactly when its ID was not processed before; it then joins the end of the `high`, `normal` or other (low) level and its ID is recorded; a refused item changes nothing |
| ParallelMigration.MigrationQueue.Get | src/creators/parallel_migration.py:184-197 | the head of the first non-empty level in high, normal, low order comes out and is removed; with all levels empty the result is `None` and nothing changes |
| ParallelMigration.MigrationQueue.IsEmpty | src/creators/parallel_migration.py:199-203 | true exactly when no level holds an item |
| ParallelMigration.PutSentinels | src/creators/parallel_migration.py:505-512 | putting `n` copies of `None` accepts at most one, and one exactly when `n > 0` and its ID was not processed |
| ParallelMigration.UrlTitleIdsCollide | src/creators/parallel_migration.py:205-210 | two different pages whose URL and title differ only in where an `_` falls get the same ID |
| ParallelMigration.PriorityOf | src/creators/parallel_migration.py:476-481 | `high` exactly for at most one level, `low` exactly for more than three, `normal` exactly for two or three |
| ParallelMigration.Optimal | src/creators/parallel_migration.py:262-289 | the chunk size is between 5 and 20; concurrency is capped at 50 with `psutil` and 40 without; the fallback is 20 and 10 |
| ParallelMigration.ResourceSettings.constructor | src/creators/parallel_migration.py:229-231 | detection not yet done, 20 concurrent tasks, chunks of 10 |
| ParallelMigration.ResourceSettings.DetectOptimalResources | src/creators/parallel_migration.py:257-292 | the first call stores and returns the pair chosen for the host; later calls return the stored pair and change nothing |
| ParallelMigration.DetectTwice | src/creators/parallel_migration.py:259-260 | two detections return the same pair, the one chosen for the first host |
| ParallelMigration.FilterExactly | src/creators/parallel_migration.py:548-551 | an element is kept exactly when it is in the input and accepted, and no more come out than went in |
| ParallelMigration.FilterAppend | src/creators/parallel_migration.py:548-551 | filtering distributes over concatenation, so order is preserved |
| ParallelMigration.PagesToUpdateExactly | src/creators/parallel_migration.py:548-551 | a page is updated exactly when its stripped article ID passes `isdigit` (ASCII digits and `²`, `³`, `¹`), in input order |
| ParallelMigration.SuperscriptArticleKept | src/creators/parallel_migration.py:548-551 | a page whose article ID is `²` passes `isdigit` and is kept for updating |
| ParallelMigration.ArticleId | src/creators/parallel_migration.py:550 | `page.get('article_id', '')`; PagesToUpdateExactly and UpdatedEntries are stated with it |
| ParallelMigration.HasNumericArticle | src/creators/parallel_migration.py:550 | the stripped article ID passes `isdigit`, which on Latin-1 also accepts `²`, `³` and `¹`; PagesToUpdateExactly proves the pages updated are exactly these |
| ParallelMigration.Filter | src/creators/parallel_migration.py:548-551 | the elements a test accepts, in order; FilterExactly and FilterAppend prove membership and order |
| ParallelMigration.PagesToUpdate | src/creators/parallel_migration.py:548-551 | `pages_to_update`: the pages with a numeric article ID, in order; PagesToUpdateExactly proves exactly which pages stay |
| ParallelMigration.Chunks | src/creators/parallel_migration.py:599 | every chunk holds between 1 and `n` pages and every chunk but the last holds exactly `n` |
| ParallelMigration.FlattenCons | src/creators/parallel_migration.py:599 | concatenating a chunk in front of chunks concatenates their contents |
| ParallelMigration.ChunksPartition | src/creators/parallel_migration.py:598-599 | the chunks concatenated in order give back the list |
| ParallelMigration.UpdatedEntries | src/creators/parallel_migration.py:610-613 | the ID of every page is in the results, with the success of the last page carrying that ID |
| ParallelMigration.UpdatedKeys | src/creators/parallel_migration.py:610-613 | every key of the results is the ID of some updated page |
| ParallelMigration.Updated | src/creators/parallel_migration.py:610-613 | `results[article_id] = success` over the pages in order, a later page overwriting; UpdatedEntries and UpdatedKeys prove which entries it holds |
| ParallelMigration.UpdateContents | src/creators/parallel_migration.py:539-599 | the results are those of updating the pages with a numeric article ID in order; a negative chunk size given with a concurrency makes no chunks and so no results |
| ParallelMigration.UpdateChunks | src/creators/parallel_migration.py:602-613 | looping over the chunks and their pages gives the results of updating the concatenated chunks in order |
| WebContentProcessor.Relative | src/processors/web_content_processor.py:94-102 | the relative form of a parsed URL starts with `/` |
| WebContentProcessor.CleanUrl | src/processors/web_content_processor.py:67-106 | an empty URL, one starting with `/`, one without a host or one that does not parse is kept; a changed URL starts with `/` and was on the base's host up to case |
| WebContentProcessor.CleanUrlIdempotent | src/processors/web_content_processor.py:67-106 | cleaning a cleaned URL changes nothing |
| WebContentProcessor.CleanUrlSameHost | src/processors/web_content_processor.py:94-102 | an `http(s)` URL on the base's host up to case becomes `/` + its path without leading slashes + `?query` + `#fragment` |
| WebContentProcessor.CleanUrlOnHost | src/processors/web_content_processor.py:80-102 | a URL whose lowercased host is the base's host becomes its relative form |
| WebContentProcessor.BaseNetlocOfHost | src/processors/web_content_processor.py:84-86 | the host compared for a base `scheme://host` is that host lowercased |
| WebContentProcessor.BaseNetloc | src/processors/web_content_processor.py:84-87 | the host a base domain is compared with: its lower-cased netloc, or the whole text lower-cased without one; BaseNetlocOfHost proves it is the host of `scheme://host` |
| WebContentProcessor.CleanUrlOtherHost | src/processors/web_content_processor.py:89-91 | an `http(s)` URL on another host is kept as it is |
| WebContentProcessor.LastProtocol | src/processors/web_content_processor.py:428-436 | the last place at or before `k` where whitespace precedes `http://` or `https://`, or none |
| WebContentProcessor.ProtocolAt | src/processors/web_content_processor.py:431 | a place where `\s+(https?://)` matches: whitespace just before, a protocol at it; LastProtocol and KeepsFromLastProtocol are stated with it |
| WebContentProcessor.KeepLastProtocol | src/processors/web_content_processor.py:428-436 | the text from the last protocol that follows whitespace, or the URL unchanged without one; KeepsFromLastProtocol proves what is kept |
| WebContentProcessor.CleanBeforeProcessing | src/processors/web_content_processor.py:417-441 | the cleaned URL holds no backslash and has no whitespace at either end |
| WebContentProcessor.KeepsFromLastProtocol | src/processors/web_content_processor.py:428-434 | with a space before the last such protocol, the text from that protocol on is kept |
| WebContentProcessor.CleanBeforeProcessingKeepsClean | src/processors/web_content_processor.py:417-441 | a URL without `&quot;`, surrounding quotes or whitespace, space before a protocol or backslash comes back unchanged |
| WebContentProcessor.ShouldProcessAsDocument | src/processors/web_content_processor.py:368-379 | as written, the check answers true exactly for a document path and otherwise raises on `IMAGE_EXTENSIONS`; it never answers false |
| WebContentProcessor.ShouldProcessAsDocumentIntended | src/processors/web_content_processor.py:368-387 | as intended, a document path, an image extension or a media keyword makes a document, and nothing else does |
| WebContentProcessor.ImageUrlRaises | src/processors/web_content_processor.py:375-381 | an image URL outside the document paths raises as written and is a document as intended |
| WebContentProcessor.ImageRaises | src/processors/web_content_processor.py:375-381 | for `/a.png` the check raises as written and answers true as intended |
| WebContentProcessor.NoDocumentPathWithout | src/processors/web_content_processor.py:52 | a URL without `w`, `d` or `u` lies outside every document path |
| WebContentProcessor.HasDocumentPath | src/processors/web_content_processor.py:375 | the lower-cased URL contains one of the document paths; NoDocumentPathWithout, ImageUrlRaises and NonDocumentUrlRestored are stated with it |
| WebContentProcessor.DocumentEffect | src/processors/web_content_processor.py:294-343 | a document is restored and marked failed exactly when it is not mapped; a mapped document records the original URL and rewrites the attribute with the migrated URL |
| WebContentProcessor.Rewritten | src/processors/web_content_processor.py:323-333 | a `style` attribute gets the new URL inside its `url(…)`, any other attribute is set to it; PlainLinkRewritten proves an ordinary link is rewritten so |
| WebContentProcessor.Restored | src/processors/web_content_processor.py:336-341 | the URL marked failed and the attribute set back to the original URL; NonDocumentUrlRestored proves when it happens |
| WebContentProcessor.FullUrl | src/processors/web_content_processor.py:299-301 | an `http(s)` URL as it is, else the base without trailing `/`, a `/`, and the URL without leading `/`; MigratedDocumentMapped proves the document fetched is this URL's |
| WebContentProcessor.ProcessSingleUrlWith | src/processors/web_content_processor.py:274-366 | a failed URL is not mapped and its attribute is untouched or restored; a mapped URL records the original and rewrites the attribute; an untouched attribute means a failure |
| WebContentProcessor.DecidedEffect | src/processors/web_content_processor.py:292-366 | once the check has answered or raised, a failure restores the original URL, a mapping rewrites the attribute, and the attribute is always set |
| WebContentProcessor.NonDocumentUrlRestored | src/processors/web_content_processor.py:292-366 | as written, every URL outside the document paths is marked failed and restored |
| WebContentProcessor.ProcessSingleUrl | src/processors/web_content_processor.py:274-366 | `_process_single_url` with the document check as written; NonDocumentUrlRestored proves every URL outside the document paths is restored and marked failed |
| WebContentProcessor.PlainLinkRewritten | src/processors/web_content_processor.py:344-362 | as intended, an ordinary link is rewritten by `_clean_url` and not marked failed |
| WebContentProcessor.ProcessSingleUrlIntended | src/processors/web_content_processor.py:274-366 | `_process_single_url` with the document check as intended; PlainLinkRewritten proves an ordinary link is rewritten and not marked failed |
| WebContentProcessor.MigratedDocumentMapped | src/processors/web_content_processor.py:318-323 | a migrated document maps the original URL to the migrated URL made relative |
| WebContentProcessor.ProcessUrl | src/processors/web_content_processor.py:262-268 | a cached rewrite is applied directly and nothing is marked failed |
| WebContentProcessor.CollapsibleChecker.constructor | src/processors/web_content_processor.py:55-64 | the memo table starts empty |
| WebContentProcessor.Qualifies | src/processors/web_content_processor.py:557-565 | a panel qualifies with a heading and a collapse or body, or with a title and a body; IsCollapsibleContent and MixedMeansSomeDiv are stated with it |
| WebContentProcessor.IsCollapsible | src/processors/web_content_processor.py:552-569 | some panel qualifies; CollapsibleChecker.IsCollapsibleContent proves the memoised check answers it |
| WebContentProcessor.CollapsibleChecker.IsCollapsibleContent | src/processors/web_content_processor.py:541-574 | the answer is true exactly when some panel has a heading with a collapse or body, or a title with a body, and it is memoised for the content |
| WebContentProcessor.FetchAndProcessWith | src/processors/web_content_processor.py:576-628 | the result succeeds exactly when the page was fetched and processed to something and no background check raised; it is then collapsible exactly when the page's panels qualify; mixed implies success and not collapsible |
| WebContentProcessor.BackgroundImageFails | src/processors/web_content_processor.py:472-479 | as written, one background image outside the document paths fails the whole page |
| WebContentProcessor.FetchAndProcess | src/processors/web_content_processor.py:576-628 | `fetch_and_process_content` with the document check as written; BackgroundImageFails proves one background image outside the document paths fails the page |
| WebContentProcessor.IntendedFetchSucceeds | src/processors/web_content_processor.py:576-628 | as intended, the page succeeds exactly when it was fetched and processed to something |
| WebContentProcessor.MixedMeansSomeDiv | src/processors/web_content_processor.py:600-623 | mixed content means the page is not collapsible and one of its first 30 `div`s is |
| WebContentProcessor.WordRun | src/processors/web_content_processor.py:25-26 | the longest leading run of word characters |
| WebContentProcessor.ColumnPattern | src/processors/web_content_processor.py:25-26 | `^col-\w+-<infix>\d+`, with the word run taken as the longest one; IsBootstrapClass is made of it |
| WebContentProcessor.IsBootstrapClass | src/processors/web_content_processor.py:24-34 | `BOOTSTRAP_PATTERNS.match`: a column or offset pattern, or one of the listed prefixes; PartitionClasses and NonBootstrapMembers prove exactly those classes are removed |
| WebContentProcessor.NonBootstrap | src/processors/web_content_processor.py:520-527 | the kept classes are no more than the classes |
| WebContentProcessor.PartitionClasses | src/processors/web_content_processor.py:520-527 | the loop puts exactly the matching classes in the set and the others, in order, in the list |
| WebContentProcessor.NonBootstrapMembers | src/processors/web_content_processor.py:520-527 | a class is kept exactly when it is a class of the div and matches no pattern |
| WebContentProcessor.NonBootstrapAppend | src/processors/web_content_processor.py:523-527 | the kept classes stay in their order |
| WebContentProcessor.NonBootstrapAll | src/processors/web_content_processor.py:520-527 | with no matching class, every class is kept |
| WebContentProcessor.NonBootstrapNone | src/processors/web_content_processor.py:520-527 | with only matching classes, none is kept |
| WebContentProcessor.CleanFirstDivBootstrap | src/processors/web_content_processor.py:507-539 | the method computes the cleaned first `div` |
| WebContentProcessor.CleanFirstDiv | src/processors/web_content_processor.py:507-539 | `_clean_first_div_bootstrap` on the first `div`'s class list; CleanFirstDivBootstrap computes it, CleanFirstDivRules and CleanFirstDivIdempotent prove what is kept |
| WebContentProcessor.CleanFirstDivRules | src/processors/web_content_processor.py:529-533 | the class list is kept when nothing matches, otherwise it holds exactly the non-matching classes, and the attribute goes when every class matches |
| WebContentProcessor.CleanFirstDivIdempotent | src/processors/web_content_processor.py:507-539 | cleaning twice changes nothing more |
| WebContentMixed.SplitContent | src/processors/web_content_mixed.py:19-88 | one or two sections; two are the leftover regular content followed by the panels; a tab section is the whole page on its own |
| WebContentMixed.HasTabs | src/processors/web_content_mixed.py:23-33 | the page has a tab list with more than one item and a tab-content block; SplitContentCases proves such a page is one tabs section |
| WebContentMixed.SplitContentCases | src/processors/web_content_mixed.py:19-88 | more than one tab with a tab block, or a parse error, or no panels give the whole page as one section; otherwise a non-blank leftover comes first and all panels joined follow as one collapsible section |
| WebContentMixed.Kept | src/processors/web_content_mixed.py:219-220 | an answer adds at most one value: itself exactly when the creator did not raise and its answer is truthy, so the structured creator's failure dictionary is kept |
| WebContentMixed.CountOf | src/processors/web_content_mixed.py:167-177 | the counters never exceed the number of sections seen |
| WebContentMixed.IdsUpTo | src/processors/web_content_mixed.py:170-225 | the first `n` sections add at most `n` answers |
| WebContentMixed.CountOfSnoc | src/processors/web_content_mixed.py:173-177 | each section advances exactly the counter of its kind |
| WebContentMixed.SectionTitle | src/processors/web_content_mixed.py:173-185 | the k-th regular section is `{title} - Parte {k}` except the first; a collapsible one takes its panel title when not empty, else `Seção Colapsável {k}`; TwoSectionTitles and RegularPartTitle prove the numbering |
| WebContentMixed.TitleAt | src/processors/web_content_mixed.py:167-185 | the title of section i, numbered among the sections up to it; RegularPartTitle proves the regular numbering |
| WebContentMixed.CreateSection | src/processors/web_content_mixed.py:189-216 | a regular section goes to the structured creator, any other to the collapsible creator; IdsUpToKeepsStructuredFailure is stated with it |
| WebContentMixed.ProcessMixedContent | src/processors/web_content_mixed.py:90-227 | the loop with its two counters returns the answers of the sections' specification, section by section in order |
| WebContentMixed.IdsUpToTruthy | src/processors/web_content_mixed.py:219-225 | every collected answer is truthy |
| WebContentMixed.SingleId | src/processors/web_content_mixed.py:99-164 | a page of one section gives its creator's answer under the page title, by its kind, when truthy; MixedIdsTruthy proves it is what a one-section page returns |
| WebContentMixed.MixedIds | src/processors/web_content_mixed.py:90-227 | the answers `process_mixed_content` returns; ProcessMixedContent computes it and MixedIdsTruthy proves they are truthy and no more than the sections |
| WebContentMixed.MixedIdsTruthy | src/processors/web_content_mixed.py:99-164 | every returned answer is truthy, there are no more than sections, and a single section is created under the page title |
| WebContentMixed.IdsUpToSkipsFailure | src/processors/web_content_mixed.py:219-225 | a section whose creator raises or answers falsy adds nothing |
| WebContentMixed.IdsUpToKeepsStructuredFailure | src/processors/web_content_mixed.py:188-220 | a regular section whose structured creation failed adds the truthy failure dictionary `{"id": 0, "key": ""}` |
| WebContentMixed.TwoSectionTitles | src/processors/web_content_mixed.py:173-185 | with two sections the leftover keeps the page title and the panels take their panel title or `Seção Colapsável 1` |
| WebContentMixed.RegularPartTitle | src/processors/web_content_mixed.py:173-175 | the `k`-th regular section is titled `"{title} - Parte {k}"` when `k > 1` and keeps the title otherwise |
| StructuredContent.NestedNames | src/creators/collapse_content_creator.py:147-167 | the names of the nested fields, in order |
| StructuredContent.Lookup | src/creators/collapse_content_creator.py:147-167 | a nested field is found exactly when one has that name |
| StructuredContent.Allowed | src/creators/collapse_content_creator.py:96-101 | only `src`, `href`, `style` and `class` survive, with their values, and every one of them present survives |
| StructuredContent.AllowedIdempotent | src/creators/collapse_content_creator.py:96-101 | pruning twice changes nothing more |
| StructuredContent.Tag.constructor | src/creators/collapse_content_creator.py:96-97 | a tag starts with its attributes |
| StructuredContent.Tag.Prune | src/creators/collapse_content_creator.py:97-101 | deleting attributes one by one leaves exactly the allowed ones |
| StructuredContent.PruneAll | src/creators/collapse_content_creator.py:96-101 | every tag of the list is pruned and its attributes are the allowed ones of before |
| StructuredContent.IntOf | src/creators/collapse_content_creator.py:248 | `int` of an integer is that integer |
| StructuredContent.IntOfText | src/creators/collapse_content_creator.py:248 | `int` of the text of an integer reads back the integer |
| StructuredContent.CreateAttempt | src/creators/collapse_content_creator.py:236-254 | an attempt succeeds only on status 200 or 201 with a parsed body; every failure is a plain exception |
| StructuredContent.CreateContent | src/creators/collapse_content_creator.py:219-259 | with no fields no request is made and the answer is `False` |
| StructuredContent.CreateReturnsKey | src/creators/collapse_content_creator.py:240-248 | a first reply of 200 with a truthy `id` and a numeric `key` gives the key, not the ID |
| StructuredContent.CreateFailsAfterRetries | src/creators/tab_content_creator.py:165-188 | three failed attempts give `False` |
| CollapseContentCreator.StyleColor | src/creators/collapse_content_creator.py:33-40 | a style names a colour only when it mentions `background`, and the colour is one of the four |
| CollapseContentCreator.HasPanelSuccess | src/creators/collapse_content_creator.py:20-29 | the parent's or the element's classes, lower-cased, mention `panel-success`; PanelColorPrecedence proves this gives `Verde` first |
| CollapseContentCreator.ButtonColor | src/creators/collapse_content_creator.py:43-53 | button classes name one of the four colours or none |
| CollapseContentCreator.PanelColor | src/creators/collapse_content_creator.py:14-58 | the colour is always one of `Verde`, `Cinza`, `Azul`, `Vermelho` |
| CollapseContentCreator.PanelColorPrecedence | src/creators/collapse_content_creator.py:20-55 | `panel-success` on the parent or the element gives green; otherwise a background colour wins over button classes; with neither the colour is blue |
| CollapseContentCreator.CollapseField | src/creators/collapse_content_creator.py:143-168 | the field is named `collapse` and nests the title, colour and content fields in that order |
| CollapseContentCreator.CollapseFieldRoundTrip | src/creators/collapse_content_creator.py:143-168 | the field reads back as the title, colour and content it was built from |
| CollapseContentCreator.CollapseFromField | src/creators/collapse_content_creator.py:143-168 | a `collapse` field read back by field name as title, colour and content; CollapseFieldRoundTrip proves it inverts CollapseField |
| CollapseContentCreator.CollapseColorValue | src/creators/collapse_content_creator.py:155-159 | the colour field's value is the colour's name in lower case |
| CollapseContentCreator.CleanTitle | src/creators/collapse_content_creator.py:80-83 | a title is never empty, holds no arrow and has no whitespace at either end |
| CollapseContentCreator.CleanTitleKeepsClean | src/creators/collapse_content_creator.py:80-83 | a title that is already clean is kept |
| CollapseContentCreator.BlankTitleIsDefault | src/creators/collapse_content_creator.py:81-83 | a title of blanks and arrows only becomes `Seção` |
| CollapseContentCreator.PanelData | src/creators/collapse_content_creator.py:60-106 | a panel gives a field exactly when it has a heading and a body |
| CollapseContentCreator.ButtonData | src/creators/collapse_content_creator.py:193-204 | a button with an empty target gives nothing |
| CollapseContentCreator.ButtonCollapseData | src/creators/collapse_content_creator.py:108-141 | the button's field has a non-empty title, one of the four colours and the target's content |
| CollapseContentCreator.ProcessCollapseContent | src/creators/collapse_content_creator.py:170-211 | the fields of the panels come first, then those of the buttons |
| CollapseContentCreator.PanelFields | src/creators/collapse_content_creator.py:182-185 | the fields of the readable panels, in order; CollectPanels computes it and PanelsFirst proves they come first |
| CollapseContentCreator.ButtonFields | src/creators/collapse_content_creator.py:191-204 | the fields of the buttons whose target exists, in order; CollectButtons computes it and SkippedButton proves the others add nothing |
| CollapseContentCreator.CollectPanels | src/creators/collapse_content_creator.py:182-185 | the loop collects the fields of the readable panels in order |
| CollapseContentCreator.CollectButtons | src/creators/collapse_content_creator.py:191-204 | the loop collects the fields of the buttons with an existing target in order |
| CollapseContentCreator.PanelsFirst | src/creators/collapse_content_creator.py:176-211 | every field before the panels' count comes from a panel and every later one from a button |
| CollapseContentCreator.SkippedButton | src/creators/collapse_content_creator.py:193-200 | a button without a target, or whose target does not exist, adds nothing |
| CollapseContentCreator.NoFieldsWhenNothingRead | src/creators/collapse_content_creator.py:206-208 | no field is produced exactly when no panel and no button could be read |
| CollapseContentCreator.CreateCollapseWithoutFields | src/creators/collapse_content_creator.py:219-259 | with nothing readable no request is made and the answer is `False` |
| CollapseContentCreator.CreateCollapseContent | src/creators/collapse_content_creator.py:213-259 | `create_collapse_content`: the panels' fields then the buttons' fields posted as one structured content, answered by its key or `None`; CreateCollapseWithoutFields proves the answer is `None` without any readable field |
| TabContentCreator.TabColor | src/creators/tab_content_creator.py:57 | the colour holds no `;` and has no whitespace at either end |
| TabContentCreator.TabColorPlain | src/creators/tab_content_creator.py:57 | a style that is already a bare colour is kept |
| TabContentCreator.TabOf | src/creators/tab_content_creator.py:41-74 | an `li` gives a tab exactly when it has a link and the pane its `href` names without `#` exists |
| TabContentCreator.TabsOf | src/creators/tab_content_creator.py:17-76 | `_extract_tab_data`: nothing without the tab list or the content block, else the readable tabs in order; ExtractTabData computes it and TabSelection and EveryTabKept prove which tabs are kept |
| TabContentCreator.ExtractTabData | src/creators/tab_content_creator.py:17-76 | the loop returns the tabs of the page's specification, in order |
| TabContentCreator.TabField | src/creators/tab_content_creator.py:92-122 | the field nests the title, colour, button colour and content fields in that order, and both colours are the same |
| TabContentCreator.TabFieldRoundTrip | src/creators/tab_content_creator.py:92-122 | a tab field reads back as the tab it was built from |
| TabContentCreator.TabFromField | src/creators/tab_content_creator.py:92-122 | a `Tab` field read back by field name; TabFieldRoundTrip proves it inverts TabField |
| TabContentCreator.TabFields | src/creators/tab_content_creator.py:90-125 | there is one field per tab, in order, and each reads back as its tab |
| TabContentCreator.ProcessTabContent | src/creators/tab_content_creator.py:78-125 | the loop returns the fields of the extracted tabs |
| TabContentCreator.TabSelection | src/creators/tab_content_creator.py:27-54 | without the tab list or the content block there are no fields; an `li` without a link or without its pane adds nothing |
| TabContentCreator.EveryTabKept | src/creators/tab_content_creator.py:39-74 | with every `li` linked to an existing pane there is one field per `li`, in order |
| TabContentCreator.TruncateTitle | src/creators/tab_content_creator.py:147-150 | a title of at most 255 characters is kept; a longer one becomes its first 250 followed by `...` |
| TabContentCreator.TruncateTitleIdempotent | src/creators/tab_content_creator.py:147-150 | truncating twice changes nothing more |
| TabContentCreator.CreateTabContent | src/creators/tab_content_creator.py:142-188 | a page without tabs makes no request and answers `False` |
| ContentValidator.RespaceNoSpecials | src/validators/content_validator.py:156-161 | after the spacing steps no non-breaking space, zero-width space or tab is left |
| ContentValidator.Respace | src/validators/content_validator.py:156-161 | the spacing steps shared by texts and titles: whitespace runs become one space and the ends go, then non-breaking spaces become spaces, zero-width spaces go and tabs become spaces; RespaceNoSpecials proves none of those is left |
| ContentValidator.NormalizeText | src/validators/content_validator.py:148-166 | the normal form of a text is lowercase, trimmed, and holds no non-breaking space, zero-width space or tab |
| ContentValidator.NormalizeTextFixpoint | src/validators/content_validator.py:148-166 | a lowercase text of single-spaced words without special spaces is its own normal form, so normalising twice is normalising once |
| ContentValidator.NormalizeTextUnchanged | src/validators/content_validator.py:148-166 | a lowercase trimmed text that the spacing steps leave alone is its own normal form |
| ContentValidator.RespaceWords | src/validators/content_validator.py:156-161 | the spacing steps leave a single-spaced list of plain words alone |
| ContentValidator.JoinedWords | src/validators/content_validator.py:156 | a single-spaced list of plain words holds no special space, is lowercase and has a word at both ends |
| ContentValidator.KeepTitleChars | src/validators/content_validator.py:227 | only letters, digits and whitespace are kept, and a title of only those is kept whole |
| ContentValidator.RemoveMarkersKeeps | src/validators/content_validator.py:233-234 | removing the test markers brings in no new character and keeps the title lowercase |
| ContentValidator.RemoveMarkers | src/validators/content_validator.py:233-234 | the marker loop: each test marker replaced by nothing, one after the other; RemoveMarkersKeeps and MarkersAbsent prove what it changes |
| ContentValidator.NormalizeTitle | src/validators/content_validator.py:216-239 | the normal form of a title holds only letters, digits and whitespace, is lowercase and trimmed |
| ContentValidator.NormalizeTitleFixpoint | src/validators/content_validator.py:216-239 | a title of lowercase single-spaced words of letters and digits without `test` is its own normal form |
| ContentValidator.TitleUnchanged | src/validators/content_validator.py:216-239 | a trimmed title that the spacing, the filter and the lowering keep, and that no marker touches, is its own normal form |
| ContentValidator.TitlePrepared | src/validators/content_validator.py:221-230 | such a single-spaced list of words survives the spacing, the filter and the lowering, and holds no `(` or `[` |
| ContentValidator.MarkersAbsent | src/validators/content_validator.py:233-234 | a title without `test`, `(` or `[` is not changed by the marker loop |
| ContentValidator.ReplaceSlashesShorter | src/validators/content_validator.py:496-497 | each round of the `//` loop shortens a path that still holds `//`, so the loop ends |
| ContentValidator.CollapseSlashes | src/validators/content_validator.py:496-497 | the loop leaves no `//`, and leaves a path without `//` alone |
| ContentValidator.DropWPrefix | src/validators/content_validator.py:492-493 | a path starting with `/w/` loses that `w/`; any other path is kept |
| ContentValidator.NormalizedPathSingleSlashes | src/validators/content_validator.py:477-499 | a normalised path never holds `//` |
| ContentValidator.NormalizedPath | src/validators/content_validator.py:477-499 | `_normalize_url`: the URL without trailing slashes, parsed, and its path compared; `None` where `urlparse` raises; NormalizedPathSingleSlashes and TrailingSlashIgnored prove its properties |
| ContentValidator.ComparedPath | src/validators/content_validator.py:491-499 | the path steps of `_normalize_url`: `/w/` dropped to `/`, then every `//` collapsed; ComparePath proves the result holds no `//` |
| ContentValidator.NormalizeUrl | src/validators/content_validator.py:477-499 | the method computes the normalised path of the URL, `None` where parsing raises |
| ContentValidator.ComparePath | src/validators/content_validator.py:491-499 | the path steps give the compared path, which holds no `//` |
| ContentValidator.RemoveDoubleSlashes | src/validators/content_validator.py:496-497 | the while loop ends with the path collapsed to single slashes |
| ContentValidator.TrailingSlashIgnored | src/validators/content_validator.py:484 | a trailing slash does not change the normalised path |
| ContentValidator.ParsePlainPath | src/validators/content_validator.py:487-488 | a plain absolute path parses as a path alone |
| ContentValidator.PlainPathNormalized | src/validators/content_validator.py:477-499 | a plain path normalises through its own path |
| ContentValidator.WPrefixDropped | src/validators/content_validator.py:492-499 | a menu path under `/w/` compares as the same path without `/w` |
| ContentValidator.LinkDiffsRaised | src/validators/content_validator.py:523-536 | once normalising an `href` raises, the whole comparison raises |
| ContentValidator.ComparePair | src/validators/content_validator.py:515-541 | the loop body gives the differences of one pair of links: text, then normalised paths unless both are exempt |
| ContentValidator.Exempt | src/validators/content_validator.py:533-535 | the path mismatches not reported: both paths name `organograma`, or both `agenda-do-chefe` |
| ContentValidator.PairDiffs | src/validators/content_validator.py:515-541 | the differences of one pair of links: a text difference, then a path difference unless the normalised paths agree or are both exempt; `None` where normalising raises; PairDiffsEmpty proves when it is empty |
| ContentValidator.PairAgrees | src/validators/content_validator.py:515-541 | a pair of links that yields no difference: equal texts, and normalised paths that are equal or both exempt |
| ContentValidator.LinkDiffs | src/validators/content_validator.py:514-541 | the differences of the first `n` pairs of links, in order; `None` once normalising raises; LinkDiffsEmpty proves it empty exactly when every pair agrees |
| ContentValidator.MenuComparisonOf | src/validators/content_validator.py:501-546 | `_compare_menus`: agreement for two empty menus, the count message for different counts, the raise, agreement for no differences, else the differences; MenusAgreeExactly proves when two menus agree |
| ContentValidator.CompareMenus | src/validators/content_validator.py:501-546 | the method gives the comparison of the menus: agreement for two empty menus, the count message, or the list of differences |
| ContentValidator.PairDiffsEmpty | src/validators/content_validator.py:515-541 | a pair of links yields no difference exactly when the texts are equal and the paths normalise alike or are both exempt |
| ContentValidator.LinkDiffsEmpty | src/validators/content_validator.py:514-541 | the first `n` pairs yield no difference exactly when every one of them agrees |
| ContentValidator.MenusAgreeExactly | src/validators/content_validator.py:501-546 | two menus agree exactly when both are empty, or when they have as many links and every pair agrees |
| ContentValidator.CompareSections | src/validators/content_validator.py:286-303 | the loop body gives the differences of one pair of sections: normalised titles, then normalised contents |
| ContentValidator.SectionPairDiffs | src/validators/content_validator.py:286-303 | the differences of one pair of sections: a title difference when the normalised titles differ, then a content difference when the normalised contents differ |
| ContentValidator.SectionDiffs | src/validators/content_validator.py:285-303 | the differences of the first `k` pairs of sections, in order; SectionDiffsEmpty proves it empty exactly when every pair matches |
| ContentValidator.SectionsMatch | src/validators/content_validator.py:287-300 | a pair of sections with the same normalised title and the same normalised content |
| ContentValidator.CollapsibleComparisonOf | src/validators/content_validator.py:276-308 | `_compare_collapsibles`: the count message for different counts, agreement for no differences, else the differences; SectionsAgreeExactly proves when the sections agree |
| ContentValidator.CompareCollapsibles | src/validators/content_validator.py:276-308 | the method gives the comparison of the sections: the count message, agreement, or the list of differences |
| ContentValidator.SectionDiffsEmpty | src/validators/content_validator.py:285-303 | the first `k` pairs of sections yield no difference exactly when every pair matches |
| ContentValidator.SectionsAgreeExactly | src/validators/content_validator.py:276-308 | differing counts give the count message; the sections agree exactly when the counts are equal and every pair has the same normalised title and text |
| ContentValidator.NotContainedPastHead | src/validators/content_validator.py:74-81 | a text that does not start with a marker and has no marker head later does not contain the marker |
| ContentValidator.LogFileWith | src/validators/content_validator.py:74-81 | the file chosen for an error, for a given content marker: the collapsible log by the error type, else the content log, the menu log or the general log by a marker in the details |
| ContentValidator.LogFileFor | src/validators/content_validator.py:74-81 | the routing as written, with the marker the router tests; MainContentMisrouted proves a main-content mismatch misses the content log |
| ContentValidator.LogFileIntended | src/validators/content_validator.py:74-81 | the routing as intended, with the marker `validate_page` writes; MainContentRoutedIntended proves a main-content mismatch reaches the content log |
| ContentValidator.ContentMismatchNotCollapsible | src/validators/content_validator.py:74 | the type `Content Mismatch` does not mention `Collapsible` |
| ContentValidator.CollapsibleMismatchRouted | src/validators/content_validator.py:74-75 | a collapsible mismatch goes to the collapsible log, whatever its details |
| ContentValidator.MenuDetailsMarkers | src/validators/content_validator.py:646 | the details of a menu mismatch carry the menu marker and neither content marker |
| ContentValidator.MenuMismatchRouted | src/validators/content_validator.py:78-79 | a menu mismatch, worded as `validate_page` words it, goes to the menu log |
| ContentValidator.MainContentPrefixShape | src/validators/content_validator.py:627 | the main-content wording differs from the content marker at its tenth character |
| ContentValidator.MainContentDetailsMarkers | src/validators/content_validator.py:627 | the details of a main-content mismatch carry neither the content marker nor the menu marker |
| ContentValidator.MainContentMisrouted | src/validators/content_validator.py:76-81 | as written, a main-content mismatch whose diff text holds no capital `C` or `M` reaches the general log, not the content log |
| ContentValidator.MainContentRoutedIntended | src/validators/content_validator.py:76-77 | with the marker `validate_page` writes, a main-content mismatch reaches the content log |
| ContentValidator.RoutedToContent | src/validators/content_validator.py:74-77 | a non-collapsible error whose details carry the content marker goes to the content log |
| ContentValidator.Recorded | src/validators/content_validator.py:53-56 | recording a message adds its URL to the keys, appends the message to that URL's list, created empty when absent, and leaves every other URL alone |
| ContentValidator.Message | src/validators/content_validator.py:56 | the entry kept in `errors`: `"{error_type}: {details}"` |
| ContentValidator.ErrorsOf | src/validators/content_validator.py:53-56 | `errors` after a series of calls on a fresh validator: each call's message recorded for its URL; ErrorsInCallOrder proves which URLs it has and what they hold |
| ContentValidator.MessagesFor | src/validators/content_validator.py:53-56 | the messages of the calls about one URL, in call order |
| ContentValidator.ErrorsInCallOrder | src/validators/content_validator.py:53-56 | `errors` has an entry for exactly the URLs some call was about, holding their messages in call order |
| ContentValidator.Validator.constructor | src/validators/content_validator.py:15-28 | a validator starts with no errors and nothing written, and with the JSON list the file held |
| ContentValidator.Validator.LogValidationError | src/validators/content_validator.py:44-110 | a call records `error_type: details` for its URL, writes one entry to the file its type and details choose, and appends one entry to the JSON list |
| UrlUtils.ExtractDomain | url_utils.py:8-24 | an empty text gives `""`, and so does a text that does not parse |
| UrlUtils.WithScheme | url_utils.py:15-17 | the text `extract_domain` parses: `https://` and the URL without leading slashes, unless the URL starts with `http`; ExtractDomainBareHost proves the host is then kept |
| UrlUtils.ExtractDomainAbsolute | url_utils.py:16-21 | a URL with a scheme and a host gives `scheme://host` |
| UrlUtils.ExtractDomainBareHost | url_utils.py:16-21 | a host written without a scheme, after any slashes, gives `https://host` |
| UrlUtils.Relative | url_utils.py:41-57 | the cleaned cell has no `/` or whitespace at either end |
| UrlUtils.RemoveBareUrl | url_utils.py:43-54 | a text starting with `url` but not `url:` matches only the last label and loses exactly three letters |
| UrlUtils.RemovePrefix | url_utils.py:43-54 | only the first label of `usar a url:`, `usar a url`, `url:`, `url` that starts the cell is removed, and the rest stripped; RemoveBareUrl proves a bare `url` label loses three letters |
| UrlUtils.IsAbsolute | url_utils.py:59 | the test `url.startswith(('http://', 'https://'))` |
| UrlUtils.BareUrlLabel | url_utils.py:41-57 | a cell starting with a bare `url` label is cleaned from what follows the label |
| UrlUtils.BuiltShape | url_utils.py:38-80 | an empty cell gives `""`; otherwise the result is the cleaned cell or the cell joined to the site without its trailing slashes; an absolute cleaned cell, or any cell without a site, is kept as cleaned |
| UrlUtils.Built | url_utils.py:38-80 | `build_url`: `""` for an empty cell; the cleaned cell when it is absolute or there is no site; otherwise the join with the site without trailing slashes when it parses with a scheme and a host, else the cleaned cell; BuiltShape, BuiltAgainstSite and BuiltJoined prove these cases |
| UrlUtils.BuildUrl | url_utils.py:27-80 | the loop over the labels and the later steps build the URL the cell stands for |
| UrlUtils.BuiltAgainstSite | url_utils.py:66-76 | against a site root `scheme://host`, a relative cell becomes `scheme://host/cell` |
| UrlUtils.BuiltJoined | url_utils.py:66-76 | a relative cell whose join with the site parses with a scheme and a host is built as that join |

## Left out

- HTTP, sessions and the Liferay API are left out. Every answer from them is an argument of
  the model: an oracle function, or an outcome per attempt.
- The `asyncio` concurrency is left out: semaphores, `gather`, tasks, worker pools and the
  resource monitor. The model runs everything in sequence.
- `update_single_article` and the workers of `migrate_contents` are left out. They are
  network calls; `UpdateContents` takes their answer for each page as an argument.
- Sleeping is recorded as the delay asked for, not performed.
- Clock readings and the random portlet ID are arguments: the timestamp of a folder error
  and the random ID of `_get_type_settings`. The timestamp the validator writes with each
  report is left out.
- Floating point is left out. Progress percentages and statistics are not modelled. The
  memory figure of `detect_optimal_resources` is whole gigabytes over two, given as an input.
- HTML parsing and serialisation (BeautifulSoup) are not modelled. A page is given as the
  summary the decisions read: tag lists, class lists, attribute maps and texts. Pruning
  attributes is modelled on tags that hold only their attribute map.
- `difflib` is not modelled. The diff text of a content mismatch is an argument.
- `urlparse` is modelled for the generic syntax only. Python's special handling of some
  named schemes is left out.
- UrlParse.Parse: fails, as Python's `ValueError` does, for a netloc with an unmatched `[`
  or `]`, but not for the two later netloc checks. Python also raises when the host between
  the brackets is not a valid IPv6 or IPvFuture address, and for a non-ASCII netloc whose
  NFKC form holds `/`, `?`, `#`, `@` or `:`; the model parses those instead of failing.
- `unquote` decodes ASCII `%XX` escapes only. A multi-byte UTF-8 escape is not decoded.
- `str.isalnum`, `str.isdigit`, `lower` and `upper` are modelled for ASCII and Latin-1
  only. On Latin-1 `isdigit` holds for `0`-`9`, `²`, `³` and `¹`. Characters beyond
  Latin-1 keep their case and are neither letters nor digits.
- `upper` and `capitalize` leave `ß`, `ÿ` and `µ` unchanged. Python maps them to `SS` (`Ss`),
  `Ÿ` and `Μ`.
- NFKD, `unicodedata.combining` and `unidecode` are stand-ins for the Latin-1 letters only.
  NFKD splits an accented letter into its base and its mark and keeps every other
  character. Python's NFKD also decomposes `ª`, `º`, `²`, `³`, `¹`, `µ`, `¼`, `½`, `¾`, `¨`,
  `¯`, `´`, `¸` and the non-breaking space U+00A0; the model keeps these as they are.
- `int()` of a text with `_` digit separators is not accepted.
- `str()` of a dictionary or a list, where the code shows one in a message or a key,
  is an argument (`shown`), not Python's display.
- Object identity (`id(item)`) is an input of the queue model, chosen by the caller.
- JournalPortlets.ContentKey: gives `None` for a list, where the source sends `str(content)`
  as the article ID (src/creators/web_content_creator.py:597-598). A list's display is not
  modelled.
- ParallelMigration.UpdateContents: accepts a negative `maxConcurrent`. `asyncio.Semaphore`
  raises `ValueError` for one (src/creators/parallel_migration.py:299); the model runs the
  updates anyway.
- FolderCreator.FolderCreatorState.RetryFailedFolders: the outcome of `_retry_create_folder`
  is the argument `succeeded`. The method changes only the error log. The caches and requests
  that the retried `create_folder` would change are not modelled. As written that call raises
  `TypeError` before any request is sent (`RetryRoundAsWritten`), so it changes nothing.
- DocumentCreator.FindIn / DocumentCreator.FindExisting: the folder listing answers each
  name on its own. A search request that raises makes `_find_existing_document` return
  `None` for all four names (src/creators/document_creator.py:374-376); a network error is
  not modelled. The folder or site the search runs in is the listing's.
- `sanitize_content_path`, which builds the friendly URL path of a content, is not part of
  this model. Neither is the `friendlyUrlPath` field it fills.
- `lru_cache` memoisation, and the `_domain_cache` of the processor, are left out: they do
  not change any answer. The memo of `_is_collapsible_content` is modelled,
  keyed by the content itself: two contents with the same `hash` share an entry in
  Python, but not in the model.
- Logging and log text are left out, except where a message is a returned value.
- JSON file load and save for folder errors and validation reports are left out. Only the
  in-memory lists are modelled.
- Google Sheets authentication and worksheet reads are left out. A worksheet is given as
  its rows.
- `document_processor.py` is not part of this model. It calls methods that do not exist,
  so it only ever ends in a caught `AttributeError`.
- The root-level older copies of the `src/` modules are not part of this model.
- `_is_element_hidden` in the validator is not part of this model, nor are the page fetches
  of `validate_page`.
- `content_update.py` copies the portlet code of `web_content_creator.py`. The model holds
  that code once, in `JournalPortlets`.
- The layout update that `process_mixed_content` attempts for several sections is left
  out. Its result is not used, and `_update_page_layout` is a network call.
- The `collapsible_type == 'none'` branch of `process_mixed_content` is left out. No code
  sets that key, so it cannot be taken.
- `_process_url_batch` and the URL loop of `process_content` are modelled one URL at a time
  (`ProcessUrl`, `ProcessSingleUrlWith`). The gathering over all URLs of a page, and the
  `_process_and_get_migrated_url` network step, are arguments.
- `retry_failed_pages` and page error tracking are left out. They are loops over network
  calls, with JSON persistence.

## Findings

| source | as written | input that shows it | evidently intended | confidence | as-written member | corrected member |
|---|---|---|---|---|---|---|
| src/creators/folder_creator.py:187 | `create_folder` calls `normalize_folder_name(title, None, folder_type)`, but that function takes one argument (src/validators/folder_name_validator.py:81). Every call raises `TypeError`, so `create_folder_hierarchy` returns 0 and `retry_failed_folders` recreates nothing | no levels and a final title whose folder is already cached under the site root: the corrected walk answers the cached ID, the code as written 0 | `normalize_folder_name(title)` | high, not executed | FolderCreator.ArityDefectShown, FolderCreator.FolderHierarchyAsWrittenFails, FolderCreator.RetryRoundAsWrittenFails | FolderCreator.FolderHierarchy, FolderCreator.RetryRoundRemaining |
| src/processors/web_content_processor.py:379 | `_should_process_as_document` reads `self.IMAGE_EXTENSIONS`, which the class never defines. Every URL outside the document paths raises `AttributeError`, so ordinary links are marked failed and restored, and a page with such a background image fails | `/a.png`, or a link to `/contato` | a set of image extensions on the class, with `False` for other URLs | high, not executed | WebContentProcessor.ImageRaises, WebContentProcessor.NonDocumentUrlRestored | WebContentProcessor.ShouldProcessAsDocumentIntended, WebContentProcessor.PlainLinkRewritten |
| src/creators/document_creator.py:400 | `migrate_document` records the URL as processed, with no mapping, before downloading. After a failed download the next iteration stops at the processed check, so the file is downloaded at most once and never marked failed | a fresh valid URL whose first download fails and whose second would succeed | claim once, then download up to three times and mark the URL failed after the last failure | high, not executed | DocumentCreator.MigrateRetryDiscrepancy | DocumentCreator.RetryDownloadsOutcome |
| src/creators/document_creator.py:252 | `_clean_document_url` finds the extension in `url.lower()` but splits the original URL. When the URL spells the extension in capitals, the split finds nothing, and a second extension is appended | `.PDF` becomes `.PDF.pdf` | cut the URL where the extension occurs in any case, which gives `.pdf` | high, not executed | DocumentCreator.CleanUpperCaseExtensionAsWritten | DocumentCreator.CleanIntendedIsPrefix |
| src/processors/page_processor.py:16 | the lower-case connectives hold the mojibake `Ã©` instead of `é`. Words are lower-cased before the lookup, so the entry never matches, and `é` after the first word is capitalised | `a é` becomes `A É` | `é` among the connectives, so `A é` | high, not executed | PageProcessor.MojibakeAsWritten | PageProcessor.MojibakeIntended |
| src/creators/web_content_creator.py:361 | `migrate_content` caches the whole result dictionary under the title. The next migration of that title finds it truthy and answers with the dictionary as its `id`, and uses it in the key request URL | migrate a title once through the regular creator, then again | cache the integer ID | medium, not executed | WebContentCreator.CachedDictAsId | WebContentCreator.CachedIdIntended |
| src/validators/content_validator.py:76 | the content log is chosen when the details hold `Conteúdo não corresponde ao original`. `validate_page` words a main-content mismatch `Conteúdo principal não corresponde ao original` (line 627), so it goes to the general log | a main-content mismatch with any diff free of `C` and `M` | match the wording `validate_page` uses | medium, not executed | ContentValidator.MainContentMisrouted | ContentValidator.MainContentRoutedIntended |

The page creator (`PageCreator`) builds every page name with `PageProcessor.NormalizePageNameAsWritten`, because those are the names the code sends (`PageCreator.SentNameMojibake`). The corrected `PageProcessor.NormalizePageName` is proved on its own.
