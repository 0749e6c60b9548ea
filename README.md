# WeChat article crawler: a Dafny model

This project models the core of a small MCP service that crawls WeChat Official Account
articles (`mp.weixin.qq.com`), saves them to disk with their images, and analyses them. It
also models the process manager that starts and stops the service's servers. Three source
files make up the core:

- `weixin_spider.py` holds the crawler object `WeixinSpider`. Its parts are:
  - the three-tier browser driver start-up;
  - a bounded retry loop around navigation;
  - the scroll-until-stable loop;
  - extraction of title, author, time, body and image records by ordered selector fallback;
  - URL normalisation of image addresses;
  - choice of file extension;
  - the batch download that updates image records in place;
  - rewriting of `img` tags in the saved HTML;
  - `save_article_to_file`: naming, write order and the saved-files manifest.
- `weixin_server.py` holds the tool layer. Its parts are:
  - the spider singleton with its repair path;
  - the crawl tool's URL check and reply;
  - content analysis: paragraphs, reading time, keyword ranking and image figures;
  - article statistics;
  - the one-sentence summary;
  - the `.md` rule for note files.
- `process_manager.py` holds the server manager. Its parts are:
  - `.env` parsing;
  - PID-file bookkeeping with pruning of stale files;
  - `status`;
  - the guards of `start_server` and `stop_server`;
  - aggregation in `start_all` and `stop_all`.

The browser, HTML parser, HTTP client, file system, clock and operating system become
parameters:

- A page is a selector oracle, `string -> Query`. A query raises, finds nothing, or finds an element with its text nodes and markup.
- An HTML body is a sequence of nodes: `img` tags with attribute maps, placeholders, and other markup.
- `Host` answers fetches, base64 decoding, file-system writes (`io(path)` is the error a write raises, if any) and millisecond clocks.
- `DriverHost` gives the outcome of each way of starting Chrome.
- `Os` answers liveness, which scripts exist, spawning and signalling.

Where the code is imperative, the model is too:

- `WeixinSpider`, `SpiderService` (the module-level singleton) and `ProcessManager` are classes whose methods update their fields.
- The batch download updates an `array` of image records in place.
- The HTML rewrite loops over an `array` of nodes in place.
- The keyword collector, `.env` loader, running-server scan, `status`, `start_all` and `stop_all` are loops with invariants.

Each method is proved against a specification function, and the properties of those functions are proved as lemmas.

Some behaviours of the code are easy to miss. The model keeps each of them as the code has it:

- **The rewrite is not idempotent.** A second pass turns every `images/<file>` tag into a placeholder, because no stored address equals a local path (`Rewrite.RewriteNotIdempotent`, `Rewrite.SecondPassLeavesNoImages`).
- **The rewrite compares different address forms.** It compares the *normalised* stored address with the tag's *raw* `src`/`data-src`. So a protocol- or host-relative image always becomes a placeholder, even when it was downloaded (`Rewrite.RelativeTagNeverLocalised`).
- **The extraction-failure record has `word_count` 0.** This is not the length of its content text.
- **The rewrite runs even when downloads are off.** It runs whenever there are both a body and images. With downloads disabled, every `img` tag then becomes a placeholder (`Spider.SavedPageImages`).
- **`_download_all_images` returns nothing.** `Batch.Done(n)` carries the success count the method logs.
- **A custom file name is used verbatim.** It is not sanitised. Only title-derived names are proved to stay inside `articles/` (`Spider.TitleNamedFilesStayInDir`).
- **The note file name is not truncated.** It uses the sanitised title without the 50-character cut.
- **Scroll errors are swallowed.** `_scroll_page` ends quietly when a height query raises.

## Model

| member | source | states |
|---|---|---|
| Selectors.FirstWithText | weixin_spider.py:378-389 | the position of the first selector, in list order, whose element exists and has non-empty stripped text; no earlier selector qualifies; a raising selector never qualifies |
| Selectors.FirstMatch | weixin_spider.py:391-400 | the position of the first selector that finds an element, whether or not it has text; no earlier one finds anything |
| Selectors.GetTextBySelectors | weixin_spider.py:378-389 | the loop returns the text of the first selector with text, else the default; a result other than the default means some selector had text |
| Selectors.GetElementBySelectors | weixin_spider.py:391-400 | the loop returns the first element found; None exactly when no selector finds an element |
| Dom.StrippedStrings | weixin_spider.py:301 | `strip=True` drops blank text nodes: no empty string is kept, and the result is empty exactly when every node is blank |
| Dom.GetTextEmptyIff | weixin_spider.py:384-385 | an element's stripped text is empty exactly when all its text nodes are blank |
| Dom.ImgTags | weixin_spider.py:346 | `find_all('img')` keeps only `img` tags: each listed attribute map is an `img` node of the fragment, and every `img` node of the fragment is listed |
| Dom.ImgTagsAppend | weixin_spider.py:346 | the tags of a concatenation are the first part's tags followed by the second's, so document order is kept |
| Dom.ImgTagsOfNode | weixin_spider.py:346 | a single node contributes exactly its attributes when it is an `img` tag and nothing otherwise |
| Article.ArticleOf | weixin_spider.py:247-338 | `image_count` is the number of images, the images are those extracted from the content HTML, no URL or crawl time is set yet; with the content ready `word_count` is the content length; otherwise the fixed failure record |
| Article.ExtractArticleContent | weixin_spider.py:247-338 | the record's `image_count` is its number of images and `word_count` its content length; with no content element the content is "无法提取内容" with empty HTML and no images; when extraction raises, the fixed failure record; no URL or crawl time yet |
| ImageRefs.NormalizeUrlShape | weixin_spider.py:364-368 | the normalised address ends with the raw one; `/`-relative addresses become `https://…`, single-slash ones on the `https://mp.weixin.qq.com` host; other addresses are unchanged; the result never starts with `/` |
| ImageRefs.ExtractImages | weixin_spider.py:340-376 | the loop over the img tags builds exactly the records `ImagesOf` describes |
| ImageRefs.NewImageFresh | weixin_spider.py:349-370 | a new record has a non-empty, non-relative address, is not downloaded and carries no error |
| ImageRefs.ImagesOfAt | weixin_spider.py:348-371 | each extracted record was built from the img tag at position `index - 1`, which has `data-src` or `src`; its address is the normalised `data-src`, else `src`; it starts undownloaded |
| ImageRefs.ImagesOfIncreasing | weixin_spider.py:348-371 | extracted records keep document order: their indices strictly increase |
| ImageRefs.ImagesOfComplete | weixin_spider.py:361-371 | every img tag with a `src` or `data-src` yields a record whose index is its 1-based position among all img tags |
| Download.SplitExtOfKnown | weixin_spider.py:429-430 | `os.path.splitext` of a path ending in a known suffix gives that suffix (or none, for a bare dotted name) |
| Download.DropParams | weixin_spider.py:427-428 | `urlparse` splits `;params` off the last path segment: the result is a prefix of the path, and its last segment holds no `;` |
| Download.DropParamsKeepsName | weixin_spider.py:427-428 | `dirs/name;params` loses exactly the parameters and keeps `dirs/name` |
| Download.UrlPath | weixin_spider.py:427-428 | the path of an address holds no query and no fragment, and, for a scheme that takes parameters, no `;params` in its last segment |
| Download.ExtensionFor | weixin_spider.py:416-432 | a content type naming jpeg or jpg gives `.jpg`; else png gives `.png`, gif `.gif`, webp `.webp`; a type naming none of these gives the known suffix of the lower-cased URL path, else `.jpg`; the result is always a known extension, or empty (the `splitext` of a bare dotted name such as `/.png`) and then only when the type names none of them |
| Download.SaveDataUrl | weixin_spider.py:458-489 | an address without `,` fails with the unpacking error; a save succeeds exactly when there is a `,`, the part after it decodes and the write works; a saved file is `<prefix>_<timestamp>.png` inside the directory |
| Download.DownloadImage | weixin_spider.py:402-456 | a `data:` address is the data-URL save; a failed fetch fails with its message; a fetched image is saved exactly when writing its file works, named `<prefix>_<timestamp><ext>` with the extension the content type and URL choose; the saved path is the file name joined to the directory |
| Download.SavedFileNaming | weixin_spider.py:434-437 | every saved image, data URL or fetched, is named `<prefix>_<timestamp><ext>` with a known extension |
| Download.DataUrlIsPngWithoutFetch | weixin_spider.py:406-407 | a `data:` address is decoded locally: the outcome does not depend on the HTTP client, and a saved file ends in `.png` |
| Download.DownloadedAll | weixin_spider.py:501-521 | the batch keeps the list's length |
| Download.Successes | weixin_spider.py:500-513 | the success count never exceeds the number of entries |
| Download.OneOutcomePerImage | weixin_spider.py:501-521 | an entry without an address is untouched; every other entry changes only in its outcome fields and ends either downloaded with file name and path set, or failed with an error set |
| Rewrite.FirstUsable | weixin_spider.py:544-546 | the first image whose stored address equals the tag's `src` or `data-src` and that is downloaded with a non-empty file name; none before it qualifies |
| Rewrite.RewriteOne | weixin_spider.py:539-562 | the inner loop localises the tag from the first usable image and otherwise replaces it by a placeholder |
| Rewrite.RewriteInPlace | weixin_spider.py:537-564 | the loop over the parsed tags leaves the array equal to the rewritten body |
| Rewrite.ReplaceImageUrls | weixin_spider.py:531-564 | the result is the rewritten body, node for node |
| Rewrite.Localised | weixin_spider.py:548-556 | `src` becomes `images/<filename>`, no non-empty `data-src` remains (an empty one is kept, as the source deletes it only when it has a value), a non-empty `alt` is kept and an empty or missing one becomes "图片 <index>"; every other attribute is kept and no attribute is added besides `src` and `alt` |
| Rewrite.PlaceholderText | weixin_spider.py:558-562 | the placeholder reads "图片加载失败: " followed by the tag's `alt` when it has one, even an empty one, else "未知图片" |
| Rewrite.LocalisedTag | weixin_spider.py:548-556 | a localised tag has `src = images/<filename>`, no non-empty `data-src`, and a non-empty `alt` that keeps a non-empty original |
| Rewrite.LocalisedKeepsOthers | weixin_spider.py:550-556 | localising touches no attribute besides `src`, `data-src` and `alt` |
| Rewrite.RewriteAt | weixin_spider.py:539-562 | non-img nodes are kept; an img tag with a usable image is localised from the first one; any other img tag becomes the placeholder "图片加载失败: <alt or 未知图片>" |
| Rewrite.UnclaimedBecomesPlaceholder | weixin_spider.py:558-562 | an img tag that no downloaded image claims becomes a placeholder |
| Rewrite.OnlyLocalImagesRemain | weixin_spider.py:539-562 | after a rewrite every remaining img tag points into `images/` and has no non-empty `data-src` |
| Rewrite.SecondPassLeavesNoImages | weixin_spider.py:544-562 | with extracted (non-local) addresses, a second rewrite leaves no img tag at all |
| Rewrite.RewriteNotIdempotent | weixin_spider.py:544-562 | a concrete one-image body on which two passes differ from one |
| Rewrite.NothingDownloadedNoImages | weixin_spider.py:546-562 | when no image is downloaded, every img tag becomes its placeholder |
| Rewrite.StoredUrlsAbsolute | weixin_spider.py:361-370 | extracted addresses are never empty and never relative, before or after downloading |
| Rewrite.DownloadKeepsUrl | weixin_spider.py:503-521 | downloading never changes an entry's address |
| Rewrite.RelativeTagNeverLocalised | weixin_spider.py:365-370 | a tag whose raw addresses are relative is replaced by a placeholder whatever was downloaded |
| Naming.DropSpecial | weixin_spider.py:580 | removing non-word, non-space, non-dash characters keeps only word characters, white space and dashes, and keeps every word character of the input in order |
| Naming.DropSpecialKeeps | weixin_spider.py:580 | every word character, white-space character and dash occurs in the result exactly as often as in the input |
| Naming.CollapseRuns | weixin_spider.py:581 | collapsing runs of dashes and white space leaves no white space, adds only dashes, keeps a leading ordinary character, and keeps the word characters in order |
| Naming.BaseName | weixin_spider.py:574-582 | a custom name is used as given; otherwise the base name is the safe title cut to 50 characters: its prefix of length 50, or all of it when shorter |
| Naming.CollapseRunsClean | weixin_spider.py:580-581 | after both substitutions the name holds only word characters and dashes, never two dashes in a row |
| Naming.SafeTitle | weixin_spider.py:580-581 | the safe title is clean (word characters and single dashes only), no longer than the title, and holds exactly the title's word characters in order |
| Naming.BaseNameClean | weixin_spider.py:580-582 | a title-derived base name is clean (truncation keeps it clean) |
| Naming.CleanIsFixed | weixin_spider.py:580-581 | both substitutions leave a clean name unchanged |
| Naming.SafeTitleIdempotent | weixin_spider.py:580-581 | sanitising a safe title changes nothing |
| Naming.SaveDir | weixin_spider.py:586 | the directory starts with `articles/<base>` and ends with `_<timestamp>`; when neither part holds a `/` its only `/` is the one after `articles` |
| Spider.StartDriver | weixin_spider.py:133-158 | the system driver is used when it works, else the managed one, else the default; when all three fail the error names the last failure |
| Spider.FirstLoaded | weixin_spider.py:187-217 | the first attempt whose navigation works, with every earlier one failing; the end when none works |
| Spider.Crawled | weixin_spider.py:180-217 | a crawl that gives an article had a driver; the article carries the requested URL, a crawl time, and an image count equal to its number of images |
| Spider.CrawlFailsOnlyIfEveryAttemptFails | weixin_spider.py:187-217 | the crawl gives None exactly when there is no driver or every one of the `retry_times` attempts fails (none at all for 0) |
| Spider.SaveOrder | weixin_spider.py:584-659 | a complete save makes the directory, writes the text file, makes the images directory (only with images and downloading on), writes the JSON record, then the HTML page; JSON and page carry the download outcomes |
| Spider.SaveSpec | weixin_spider.py:570-676 | a save is complete exactly when making the directory, writing the text file, making the images directory (when there are images and downloading is on), writing the JSON record and writing the page all work |
| Spider.SaveRecordsDownloads | weixin_spider.py:604-615 | the saved record differs from the article only in its images, which are the batch-downloaded entries exactly when there are images and downloading is on |
| Spider.SaveManifest | weixin_spider.py:662-669 | a complete save's manifest is json, txt, html, then `images_dir` exactly when there were images and downloading is on; a failed save has no manifest and never writes the page |
| Spider.TitleNamedFilesStayInDir | weixin_spider.py:585-624 | without a custom name the directory starts with `articles/` and the txt, json, html files and `images` lie directly in it |
| Spider.SavedPageImages | weixin_spider.py:617-621 | in the saved page every img tag points into `images/`; with downloading off, a body with extracted images keeps no img tag |
| Spider.WeixinSpider.constructor | weixin_spider.py:40-49 | a new crawler has no driver, the given download flag and no saved files |
| Spider.WeixinSpider.Launch | weixin_spider.py:40-52 | constructing a crawler succeeds exactly when some driver tier starts, and raises the driver error otherwise |
| Spider.WeixinSpider.SetupDriver | weixin_spider.py:65-158 | the driver becomes the first tier that works; when all fail, the error is returned and the driver is unchanged |
| Spider.WeixinSpider.Close | weixin_spider.py:678-686 | quitting drops the driver; a quit that raises keeps it; nothing else changes |
| Spider.WeixinSpider.ScrollPage | weixin_spider.py:219-245 | the loop stops at the first height equal to the previous one; running out of heights (a script error) ends it unsettled; no driver means no scroll |
| Spider.WeixinSpider.CrawlArticleByUrl | weixin_spider.py:180-217 | the answer is the stamped article of the first working attempt, using at most `retry_times` navigations, or None after all of them fail |
| Spider.WeixinSpider.DownloadEntry | weixin_spider.py:502-521 | one entry's outcome as the batch defines it, and whether it succeeded |
| Spider.WeixinSpider.DownloadAll | weixin_spider.py:491-523 | disabled: nothing changes; the directory cannot be made: nothing changes; otherwise the array holds every entry updated in place and the count is the number of successes |
| Spider.WeixinSpider.DownloadPhase | weixin_spider.py:604-610 | downloads only when there are images and downloading is on; the record then carries the updated entries |
| Spider.WeixinSpider.SaveTo | weixin_spider.py:584-672 | the answer, record and writes are those of the save specification; the manifest is replaced only by a complete save; driver and flag unchanged |
| Spider.WeixinSpider.SaveArticleToFile | weixin_spider.py:570-676 | the save under `articles/<base>_<timestamp>`, with the base from the custom name or the title |
| Service.InstanceFailure | weixin_server.py:36-71 | with no instance, getting one raises exactly when creating it fails, with "无法初始化爬虫实例: …"; with an instance, it raises exactly when the instance has no driver and both the re-setup and the replacement fail, with "无法创建爬虫实例: …"; a live instance never raises |
| Service.DownloadRatioReadsBack | weixin_server.py:137-140 | the ratio reads back as the downloaded count before the slash and the image count after it |
| Service.SuccessReply | weixin_server.py:114-140 | the success reply reports the image count and content length of the saved record, and the ratio exactly when downloading is on |
| Service.SuccessRatio | weixin_server.py:137-140 | the reported ratio is "k/n" with k the downloaded images and n the reported image count, k ≤ n |
| Service.SuccessReportsRequest | weixin_server.py:103-128 | a success reply reports the URL that was asked for |
| Service.SpiderService.constructor | weixin_server.py:34 | the service starts without a crawler instance |
| Service.SpiderService.GetSpiderInstance | weixin_server.py:36-71 | creates the instance when absent, re-runs the driver set-up on a driverless one and replaces it when that fails; raises only when the last creation fails; a live instance comes back unchanged |
| Service.SpiderService.CrawlWeixinArticle | weixin_server.py:74-154 | an empty address or one outside `https://mp.weixin.qq.com/` is refused without touching the spider; an instance failure becomes "爬取失败: …"; otherwise the reply of crawling and saving with the chosen download flag |
| Text.Split | weixin_server.py:186 | `split('\n')` gives at least one part, no part holds the separator, and joining the parts gives back the text |
| Text.StripEmptyIff | weixin_server.py:186 | `strip()` is empty exactly when the line is all white space |
| Analysis.NonBlankLinesZero | weixin_server.py:186 | no line is counted exactly when every line is blank |
| Analysis.ParagraphsZeroIffBlank | weixin_server.py:186 | the paragraph count is zero exactly when the content is blank |
| Analysis.ReadingMinutes | weixin_server.py:187 | at least one minute; from 300 characters on, whole 300-character minutes; under 600 characters one minute |
| Analysis.DownloadedPlusFailed | weixin_server.py:229-231 | downloaded and failed images add up to the total |
| Analysis.ImageType | weixin_server.py:233 | the part after the last dot holds no dot |
| Analysis.ImageTypes | weixin_server.py:232-236 | the types are exactly those of the addresses that have a dot: each such address contributes its type, each type comes from such an address, and no type holds a dot |
| Analysis.AnalysisOf | weixin_server.py:169-238 | no record gives the error and only then; otherwise the reply echoes the analysis type and holds the summary, keywords and image parts exactly for their own type or `full`; image figures add up |
| Analysis.AnalyzeArticleContent | weixin_server.py:157-246 | no record gives the error; an unknown type gives only `analysis_type`; `full` gives all three parts; image figures add up; the summary's word count is the content length |
| Analysis.StatisticsOf | weixin_server.py:259-264 | no record gives the "must be a dict" error, and only then |
| Analysis.StatisticsConsistent | weixin_server.py:279-287 | downloaded plus failed equals the total, at most the total; the character count is the content length; no paragraphs exactly when the content is blank |
| Analysis.CrawledWordCount | weixin_server.py:280 | for a freshly extracted record the word count equals the character count |
| Keywords.CleanText | weixin_server.py:194 | cleaning keeps length; every character is kept CJK, CJK punctuation, full-width, or a space |
| Keywords.Pieces | weixin_server.py:202 | the split pieces contain no separator |
| Keywords.PiecesCover | weixin_server.py:202 | the pieces with the separators put back between them give the text back: one more piece than separators, nothing lost |
| Keywords.WordsAreKeywords | weixin_server.py:204-215 | every collected word is 2 to 4 CJK ideographs, not a stop word, not ending in a listed suffix |
| Keywords.CollectWords | weixin_server.py:201-215 | the nested loops collect exactly the words of the specification, in order |
| Keywords.AppendPieceWords | weixin_server.py:205-215 | one piece adds its window words, nothing for pieces under two characters |
| Keywords.AppendWindowsAt | weixin_server.py:207-215 | one position adds its windows, longest first |
| Keywords.AppendWindow | weixin_server.py:209-215 | one window is added exactly when it fits and passes the test |
| Keywords.IndexOf | weixin_server.py:218 | the position of a word's entry, or the end when it has none |
| Keywords.Tally | weixin_server.py:218 | one entry per word, each an occurring word with its number of occurrences |
| Keywords.TallyInFirstOccurrenceOrder | weixin_server.py:218 | `Counter` lists its entries in the order their words first occur |
| Keywords.TallyComplete | weixin_server.py:218 | every occurring word has an entry |
| Keywords.InsertPermutes | weixin_server.py:219 | inserting adds exactly the one entry |
| Keywords.InsertRanked | weixin_server.py:219 | inserting into a ranked list keeps it ranked |
| Keywords.Rank | weixin_server.py:219 | `most_common` ranks a permutation of the tally by non-increasing count |
| Keywords.Frequent | weixin_server.py:222 | the kept entries come from the list and have count at least 2 |
| Keywords.FrequentRanked | weixin_server.py:222 | filtering keeps the ranking |
| Keywords.FrequentDistinct | weixin_server.py:222 | filtering keeps one entry per word |
| Keywords.RankDistinct | weixin_server.py:219 | ranking keeps one entry per word |
| Keywords.InsertStable | weixin_server.py:219 | inserting into a ranked list puts the new entry after every entry with the same count |
| Keywords.RankStable | weixin_server.py:219 | `most_common` is stable: the entries with any one count keep their tally order, which is first-occurrence order |
| Keywords.FrequentOfRankedIsPrefix | weixin_server.py:219-222 | on a ranked list the frequent entries are a prefix |
| Keywords.TopIsRankedPrefix | weixin_server.py:219-224 | the keywords are a prefix of the ranked tally, at most ten |
| Keywords.TopFromTally | weixin_server.py:219-224 | every keyword is a tally entry counted at least twice |
| Keywords.KeywordsRanked | weixin_server.py:218-224 | at most ten keywords, one per word, by non-increasing count |
| Keywords.KeywordsSound | weixin_server.py:204-224 | every keyword is a valid candidate, counted at least twice, with its true number of occurrences |
| Keywords.KeywordsAreMostFrequent | weixin_server.py:218-224 | a word occurring twice or more that is left out occurs no more often than any keyword |
| Keywords.KeywordsOf | weixin_server.py:190-224 | the keyword part of the analysis is the ranked, filtered, cut tally of the collected words |
| Notes.CleanTitle | weixin_server.py:676 | the cleaned title holds no "的" |
| Notes.OneSentence | weixin_server.py:672-722 | the sentence opens with the template's lead (naming the author where the template does) and the main topic; it ends with the template's closing clause when there are supporting topics and with its short closing otherwise |
| Notes.KindOf | weixin_server.py:687-715 | the template is chosen by first match: 学习/如何, then 技术/开发, then 思考/观点/看法, then 介绍/什么是, else generic |
| Notes.Supporting | weixin_server.py:679-684 | supporting topics exist only with at least two keywords, and always when the second is non-empty |
| Notes.OneSentenceMentions | weixin_server.py:679-720 | the sentence names the main topic (first keyword, else cleaned title) and the supporting topics whenever there are any |
| Notes.CoreKeywords | weixin_server.py:648 | the words of the first three ranked keywords |
| Notes.SupportingIffTwoKeywords | weixin_server.py:643-654 | with ranked keywords, the supporting clause is present exactly when there are at least two |
| Notes.GenerateOneSentenceSummary | weixin_server.py:618-670 | no record gives the error; otherwise at most three core keywords and a sentence naming the main topic |
| Notes.EnsureMarkdown | weixin_server.py:887-889 | the name ends with `.md`, gaining the suffix only when it lacked it |
| Notes.EnsureMarkdownIdempotent | weixin_server.py:887-889 | applying the rule twice changes nothing more |
| Notes.NotesFileName | weixin_server.py:878-889 | the file name ends with `.md` and starts with the custom name, or with "读书笔记_" without one |
| Notes.NotesFileNameClean | weixin_server.py:879-885 | a title-derived note file name holds no `/` |
| EnvFile.Classify | process_manager.py:75-77 | a stripped line that is empty or starts with `#` is skipped; one without `=` cannot be unpacked; otherwise it splits at the first `=` |
| EnvFile.Parsed | process_manager.py:74-77 | every line of the file is classified, in order |
| EnvFile.LoadEnv | process_manager.py:67-80 | without a `.env` file the inherited environment; otherwise the lines applied in order |
| EnvFile.ErrorPersists | process_manager.py:74-78 | once a line raises, the load raises with that message |
| EnvFile.LoadFailsIff | process_manager.py:77 | loading raises the unpacking error exactly when some line has no `=` |
| EnvFile.LastAssignmentWins | process_manager.py:78 | a key takes the value of its last assignment |
| EnvFile.UnassignedKeyInherited | process_manager.py:69-78 | a key no line assigns is kept exactly as inherited |
| EnvFile.LoadedKeys | process_manager.py:69-78 | the keys are the inherited ones plus the assigned ones |
| Processes.ServerNamesDistinct | process_manager.py:36-62 | the configured server names are distinct |
| Processes.ParsePid | process_manager.py:107 | `int(text.strip())` parses exactly when the stripped text is an optional sign followed by decimal digits; a negative result needs a leading `-` |
| Processes.ParsePidOfWritten | process_manager.py:107 | a PID file the manager wrote parses back to its PID |
| Processes.RunningAmongIs | process_manager.py:102-118 | the scan of a list of names keeps exactly those whose PID file parses to a live PID, with that PID |
| Processes.PrunedAmongIs | process_manager.py:102-118 | the scan deletes exactly the scanned names' stale or unparsable files and keeps the rest untouched |
| Processes.Running | process_manager.py:98-118 | running servers are exactly the configured ones with a live parsed PID, mapped to it |
| Processes.Pruned | process_manager.py:102-116 | the remaining PID files are exactly those of live configured servers and of unconfigured names |
| Processes.PruneKeepsRunning | process_manager.py:98-118 | pruning changes no server's liveness or the running set, and pruning again changes nothing |
| Processes.StartStep | process_manager.py:120-175 | `start_server` succeeds exactly for a configured server that already runs or whose script exists and whose spawned process stays up; an unknown name changes nothing; a running server is reported started with only the pruning done; a missing script or failed spawn fails with only the pruning done; a spawned process gets its PID file, even when it dies at once, and exactly one launch with the `.env` environment only when the server requires it, the answer being whether it survives |
| Processes.StartedHasPidFile | process_manager.py:159-168 | after a successful start the server has a parsable PID file |
| Processes.LaunchUsesRequiredEnv | process_manager.py:140-157 | a start launches at most one process, with the loaded environment only for the weather server |
| Processes.StartStepKeepsOthers | process_manager.py:120-175 | starting one server leaves every other server's liveness as it was |
| Processes.StartsUpToKeepsRest | process_manager.py:226-229 | the servers not yet walked keep their liveness |
| Processes.StartsUpToCount | process_manager.py:225-234 | the success count reaches the number of names walked exactly when each was configured and startable |
| Processes.StartAllIff | process_manager.py:221-234 | `start_all` succeeds exactly when every configured server is startable |
| Processes.StopStep | process_manager.py:177-219 | an unknown name fails; no PID file succeeds; otherwise the file is deleted, and the stop succeeds exactly when the file parses and signalling its live process does not raise; other files untouched |
| Processes.StopsUpToKeeps | process_manager.py:246-248 | the servers not yet walked keep their PID files |
| Processes.StopsUpToClears | process_manager.py:246-248 | every configured server walked past has no PID file left |
| Processes.StopsUpToOk | process_manager.py:245-253 | the stop walk succeeds exactly when no running server's signal raises |
| Processes.StopAllIff | process_manager.py:236-253 | `stop_all` succeeds exactly when no running server's signal raises; afterwards no configured server has a PID file and other files are untouched |
| Processes.CountInKeys | process_manager.py:250 | over distinct names that include every key, the count is the number of keys |
| Processes.RunningCount | process_manager.py:246-250 | the loop's total is the number of running servers |
| Processes.StatusOf | process_manager.py:255-263 | exactly the configured names, with the PID when running and None exactly when not |
| Processes.ProcessManager.constructor | process_manager.py:26-65 | the manager holds the inherited and loaded environments and the PID files, having launched nothing |
| Processes.ProcessManager.Create | process_manager.py:26-80 | construction raises the unpacking error exactly when the `.env` file has a line without `=`; otherwise the loaded environment |
| Processes.ProcessManager.GetRunningServers | process_manager.py:98-118 | the loop answers the running servers and leaves the pruned PID files |
| Processes.ProcessManager.Status | process_manager.py:255-263 | the status map of the running servers, after pruning |
| Processes.ProcessManager.StartServer | process_manager.py:120-175 | the answer and new state are those of one start step |
| Processes.ProcessManager.StopServer | process_manager.py:177-219 | the answer and new PID files are those of one stop step |
| Processes.ProcessManager.StartAll | process_manager.py:221-234 | succeeds exactly when every configured server is startable; the state is that of starting each in order |
| Processes.ProcessManager.StopEach | process_manager.py:245-253 | the count reaches the number of running servers exactly when the stop walk succeeds; the PID files are those the walk leaves |
| Processes.ProcessManager.StopAll | process_manager.py:236-253 | the answer and PID files are those of `stop_all`: true when nothing runs, else every running server must stop |

## Left out

- Browser automation is not modelled: Selenium options, `WebDriverWait`, `execute_script`, `page_source` and the webdriver-hiding script. Navigation outcomes, page heights and driver start-up are parameters.
- HTML parsing and CSS selector semantics are not modelled. A page is a selector oracle, and a body is a sequence of nodes. `str(soup)` round-tripping and entity escaping are not modelled.
- Network, base64 decoding, file writes and directory creation are answers of `Host` rather than I/O. Response bodies and sizes are not modelled.
- `time.time()`, `datetime.now()` and `time.sleep` are not modelled. Clocks and timestamps are parameters, and sleeps are dropped. Millisecond-stamped image file names carry no uniqueness guarantee in the model either.
- The exception fallback of `_replace_image_urls_in_html` is not modelled. It returns the input unchanged, and the rewrite in the model cannot raise.
- A PID-file write that raises after the process was spawned is not modelled. The spawn oracle covers only failures before a PID exists.
- Log listing, `print_status` and the signal wait loop of `stop_server` are not modelled. Only whether signalling raises is a parameter.
- Dictionary iteration order is modelled as the order of the server configuration, which is also the order `_get_running_servers` fills its map.
- The markdown note templates, the notes tools other than the one-sentence summary and the `.md` rule, the note file writes, FastMCP registration, JSON formatting and logging are not modelled.
- `math_server.py`, `write_server.py`, `greeter_server.py` and the demo and test scripts are not part of this model.
- Processes.Running: assumes liveness can be asked of any parsed PID. A PID file holding a number outside the C `int` range (such as `2147483648`) makes `os.kill(pid, 0)` raise `OverflowError`, which is not an `OSError`, so `_get_running_servers` (process_manager.py:95, 114) and with it `status`, `start_server` and `stop_all` raise. The model scans such a file like any other.
- Processes.Pruned: has the same limit as `Processes.Running`. With an out-of-range PID the source raises instead of keeping or deleting the file.
- Processes.StopStep: has the same limit. With an out-of-range PID, the liveness probe `os.kill(pid, 0)` at process_manager.py:193 raises `OverflowError`. That error gets past the handler at process_manager.py:214, so `stop_server` raises instead of answering.
- Processes.ParsePid: models `int()` as an optional sign and ASCII decimal digits after stripping. It does not model underscores between digits or non-ASCII digits, which Python also accepts.
- Naming.DropSpecial: models `\w` as ASCII letters, digits, `_` and the CJK ideographs U+4E00–U+9FFF, not all Unicode word characters.
- Analysis.ImageType: models `lower()` on ASCII letters only.
- Download.ExtensionFor: models `lower()` on ASCII letters only.
- Download.UrlPath: models `urlparse` by dropping the scheme, network location, query and fragment, and the `;params` of the last segment for schemes that take parameters. It does not model the removal of leading and trailing whitespace and control characters, the scheme validity check, or IPv6 network locations.
- Download.DownloadedAll: its own contract states only the length. The per-entry outcome is stated by `Download.OneOutcomePerImage` and `Rewrite.DownloadKeepsUrl`.
- Analysis.AnalyzeArticleContent: takes an article record with every field present. It does not model the `.get` defaults for missing fields. It does not model the exception branch that answers "分析失败: …" (weixin_server.py:241-246).
- Analysis.AnalysisOf: has the same limits as `AnalyzeArticleContent`. A record missing `download_success` counts as failed in the source (weixin_server.py:229-230); the model's records always carry the flag.
- Analysis.StatisticsOf: takes a complete record. It does not model `word_count` defaulting to the content length when missing (weixin_server.py:280), a missing `download_success` counting as failed (weixin_server.py:284-285), or the exception branch "获取统计信息失败: …" (weixin_server.py:293-298).
- Notes.GenerateOneSentenceSummary: takes a complete record. It does not model the defaults "未知标题" and "未知作者" for a missing title or author (weixin_server.py:639-640), or the exception branch "生成失败: …" (weixin_server.py:665-670).
- Notes.OneSentenceNoteOf: has the same limits as `GenerateOneSentenceSummary`, whose answer it specifies.
- Spider.WeixinSpider.ScrollPage: takes the page heights as a finite sequence, so running out of heights ends the loop. The source's `while True` never ends on a page whose height keeps changing and whose height query never raises. The model does not capture that non-termination.
