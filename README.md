# Command dispatcher: a verified model

This project models the core of a small Node.js command dispatcher. A
`CommandRegistry` maps command names to command objects. Seven commands
(hello, web-search, gemini, image-generate, text-analyze, web-research,
website-screenshot) each check their arguments, call a remote service or a
headless browser, and save what they get under `references/` or `images/`.
An Express server registers the seven at startup, runs them for
`POST /api/execute`, lists the saved files and serves them back. A browser
page builds one form per command and posts its values.

How the model is built:

- The registry is a `class` with a table and the order in which its names
  were first assigned. `register`,
  `get`, `execute` and `buildYargsConfig` are its methods.
- The abstract `Command` base and its seven subclasses become one closed
  datatype, `Commands.CommandKind`. `Commands.Perform` dispatches on it.
- Each command's `execute` is a function. It returns a `Run`: the ordered
  trace of what the command did plus its result or the message it threw. A
  trace step is a remote call, a `mkdirp`, a file write or a browser step.
- Everything a command finds outside itself is a parameter: environment
  variables, the working directory, clock readings, files on disk, remote
  replies and the browser's answers.
- The `FileSystems.FileSystem` class performs a trace on a mutable table of
  files and directories. The properties "only this file changes" and "the
  directory exists before each write" are stated against it.
- Loops that update variables in the source stay loops:
  - building the yargs declarations;
  - saving the generated images;
  - counting word frequencies;
  - gathering the form's values.
- Startup registers the seven commands with seven separate `register`
  calls, one after another. `Server.RegisterSeven` makes the same seven
  calls in the same order.

Behaviours of the code worth knowing:

- `register` silently replaces an existing name; it never refuses a
  duplicate.
- `get` returns `null` (here `None`) for an unknown name.
- The filename slug is not idempotent. The hyphen trim runs before the cut
  to 50 characters, so a cut can leave a trailing `-` (`Slug.SanitizeIdempotentIff`).
- The text-analyze slug skips the hyphen trim, so it keeps a leading `-`
  (`TextAnalyzeCommand.LeadingHyphenKept`).
- The screenshot command closes the browser only on the success path. An
  earlier failure leaves it open (`WebsiteScreenshotCommand.LeftOpenOnEarlyFailure`).
- The gemini command computes a base64 data URI for a small file but never
  sends it. Only the prompt is sent (`GeminiCommand.SentPrompts`).
- The word pattern `\b\w+\b` finds six words in "The quick brown fox. It
  jumps.", not seven (`TextStats.QuickBrownFoxHasSixWords`).
- The web page's text-analyze form sends `text`, but the command reads
  `file`. Its web-research form sends `query`, but the command reads
  `topic`. Both requests always fail with the command's missing-argument
  error (`WebUi.TextAnalyzeFromUiFails`, `WebUi.WebResearchFromUiFails`).

## Model

| member | source | states |
|---|---|---|
| Registry.Lookup | src/CommandRegistry.js:37-39 | `get` yields an entry exactly when the name is registered, and then the stored entry; otherwise `null` |
| Registry.Declare | src/CommandRegistry.js:62-67 | the declared description is the configured one unless it is missing or empty, else "Run <name> command"; the arguments are the builder's, or none |
| Registry.CommandRegistry.constructor | src/CommandRegistry.js:6-8 | a new registry holds no command |
| Registry.CommandRegistry.Register | src/CommandRegistry.js:16-22 | the entry is stored under its name, replacing any earlier one; every other name looks up as before; an overwritten name keeps its place in the assignment order, a new one is appended |
| Registry.CommandRegistry.GetAll | src/CommandRegistry.js:28-30 | returns the whole table |
| Registry.CommandRegistry.Get | src/CommandRegistry.js:37-39 | an entry exactly when the name is registered, carrying that name |
| Registry.CommandRegistry.Execute | src/CommandRegistry.js:47-53 | an unknown name throws "Unknown command: <name>" before anything runs; a known name runs that command's own `execute` on the same options and returns its result |
| Registry.CommandRegistry.BuildYargsConfig | src/CommandRegistry.js:59-71 | one declaration per registered name, in the order `Object.entries` lists the table (`PropertyOrder.OwnKeys` of the registration order: array-index names first, ascending, then the others as registered), each name exactly once, each built as `Declare` says |
| Registry.CommandRegistry.DeclareEach | src/CommandRegistry.js:61-68 | the loop makes one declaration per key, in the order given, each built from that key's entry |
| Registry.OrderedOwnKeys | src/CommandRegistry.js:61 | `Object.entries` lists every registered name exactly once |
| Registry.DeclarationsInEntryOrder | src/CommandRegistry.js:59-71 | declarations made in `Object.entries` order name every registered command once, each in its listed place |
| Registry.DeclarationNames | src/CommandRegistry.js:59-71 | declarations made in any order that lists each registered name once name every registered command and no other, none twice |
| Commands.ValidationFirst | src/commands/WebSearchCommand.js:9-12 | every command whose required argument is missing, under its key and as the first positional, throws its own message and leaves no effect (the same check opens each command file) |
| Commands.WebSearchValidates | src/commands/WebSearchCommand.js:8-12 | web-search with no query, under its key or as the first positional, throws "web-search requires a query argument" with no effect |
| Commands.GeminiValidates | src/commands/GeminiCommand.js:10-14 | gemini with no prompt throws "gemini requires a prompt argument" with no effect |
| Commands.ImageGenerateValidates | src/commands/ImageGenerateCommand.js:8-12 | image-generate with no prompt throws "image-generate requires a prompt argument" with no effect |
| Commands.TextAnalyzeValidates | src/commands/TextAnalyzeCommand.js:11-15 | text-analyze with no file throws "text-analyze requires a file path argument" with no effect |
| Commands.WebResearchValidates | src/commands/WebResearchCommand.js:12-16 | web-research with no topic throws "web-research requires a topic argument" with no effect |
| Commands.WebsiteScreenshotValidates | src/commands/WebsiteScreenshotCommand.js:11-15 | website-screenshot with no url throws "website-screenshot requires a URL argument" with no effect |
| Commands.BaseThrows | src/Command.js:11-13 | the base class's `execute` throws "execute() must be implemented by subclass" whatever the options |
| Commands.PerformResults | src/commands/TextAnalyzeCommand.js:76 | a completed text-analyze returns the analysis of the file it read; website-screenshot returns its saved paths; every other command returns nothing; hello and text-analyze make no remote call |
| Commands.Void | src/commands/WebSearchCommand.js:8-80 | a command that resolves to `undefined` keeps its effects and its error, and completes with nothing |
| Commands.Returning | src/commands/TextAnalyzeCommand.js:76 | a command that returns a value keeps its effects and its error, and completes with that value |
| Base.TextArg | src/commands/WebSearchCommand.js:9-12 | the option under the key, or else the first positional argument, passes the check only as a non-empty string; a non-empty string under the key wins; an absent or falsy value with no positional fails the check |
| Base.FirstPositionalCases | src/commands/WebSearchCommand.js:9 | `options._?.[0]` is the first element of a non-empty array, the first character of a non-empty string, and undefined otherwise |
| Base.PositionalString | src/commands/WebSearchCommand.js:9-12 | with no option under the key, a non-empty string as `_` passes the check as its first character only |
| Base.PositionalCats | src/commands/WebSearchCommand.js:9-12 | `{"_": "cats"}` makes web-search query "c" |
| Base.Or | src/commands/HelloCommand.js:7 | JavaScript's or-operator gives its left side when that is truthy, its right side otherwise |
| Base.DigitsValueOfNatToString | src/commands/ImageGenerateCommand.js:40 | the decimal text of a timestamp or index reads back to the same number |
| Base.NatToStringInjective | src/commands/ImageGenerateCommand.js:40 | different numbers print differently |
| Base.NatToString | src/commands/ImageGenerateCommand.js:40 | a number prints as at least one decimal digit, one digit exactly below 10, and a leading 0 only for 0 |
| Base.JoinAppend | src/commands/WebSearchCommand.js:52-57 | joining two non-empty lists puts exactly one separator between the two joins |
| Base.DropEmptyFacts | src/commands/GeminiCommand.js:77 | every line the filter keeps is non-empty, and it keeps every non-empty line |
| Base.IndexFrom | src/commands/WebsiteScreenshotCommand.js:79 | the position found is the first occurrence at or after the start; none means no occurrence |
| Base.CountCharZero | src/commands/TextAnalyzeCommand.js:83 | a character is counted zero times exactly when it does not occur |
| Base.Repeat | src/commands/WebResearchCommand.js:93 | `repeat(n)` gives exactly `n` copies of the character |
| Base.Split | public/app.js:368 | `split` gives one more piece than there are separators, and no piece holds the separator |
| Base.SplitGlue | src/commands/WebSearchCommand.js:52-57 | splitting at a separator distributes over text glued by that separator |
| Base.SplitJoin | src/commands/WebSearchCommand.js:52-57 | splitting undoes joining for parts that do not hold the separator |
| Paths.Walk | src/commands/TextAnalyzeCommand.js:17 | normalising a relative path onto a normalised directory gives a normalised path |
| Paths.WalkPlain | src/commands/HelloCommand.js:15 | plain names are appended to the directory as they are |
| Paths.JoinPlain | src/commands/HelloCommand.js:12-15 | `path.join(dir, "a/b")` for plain names is the directory followed by those names |
| Paths.LastDot | src/commands/TextAnalyzeCommand.js:42 | the position of the last '.', or none when there is no '.' |
| Paths.Extname | src/commands/TextAnalyzeCommand.js:42 | the extension is empty or a '.'-led proper suffix of the name |
| Paths.Stem | src/commands/TextAnalyzeCommand.js:42 | the stem followed by the extension is the name |
| Paths.RenderSplit | public/app.js:368 | a rendered path split at '/' gives the empty root piece and then its segments |
| Slug.Lower | src/commands/ImageGenerateCommand.js:25 | lower-casing keeps the length and maps each character |
| Slug.Collapse | src/commands/ImageGenerateCommand.js:26 | the result holds only `[a-z0-9-]`, never two '-' in a row, is empty exactly when the input is, and starts with '-' exactly when the input starts outside `[a-z0-9]` |
| Slug.Cut | src/commands/ImageGenerateCommand.js:28 | `slice(0, n)` is the prefix of length at most `n`; the whole text when it is short enough |
| Slug.SanitizeKeepingHyphens | src/commands/TextAnalyzeCommand.js:42-45 | the text-analyze slug is slug-shaped and is a prefix of the collapsed lower-cased text |
| Slug.CollapseKeepsSlugChars | src/commands/ImageGenerateCommand.js:26 | collapsing keeps every `[a-z0-9]` character, in order, and adds only '-' |
| Slug.SanitizeShape | src/commands/ImageGenerateCommand.js:24-28 | every slug has at most 50 characters from `[a-z0-9-]`, no two '-' in a row, and never starts with '-' |
| Slug.CollapseOfSlugText | src/commands/ImageGenerateCommand.js:26 | collapsing text that is already collapsed changes nothing |
| Slug.SanitizeIdempotentIff | src/commands/ImageGenerateCommand.js:24-28 | slugging a slug gives it back exactly when it does not end in '-' |
| Slug.SanitizeKeepsTrailingHyphen | src/commands/ImageGenerateCommand.js:27-28 | any 49 slug characters, a space and a letter give a slug ending in '-', and a second pass removes that '-' |
| Slug.SanitizeOfWordHyphen | src/commands/ImageGenerateCommand.js:27 | a slug word followed by '-' loses the '-' to the trim |
| Slug.SanitizeNotIdempotent | src/commands/ImageGenerateCommand.js:24-28 | the concrete text of 49 'a', a space and 'b' slugs to 49 'a' and '-', which slugs to 49 'a' |
| HelloCommand.Message | src/commands/HelloCommand.js:7 | the message option when it is truthy, otherwise "Hello from your new command!"; always truthy |
| HelloCommand.Hello | src/commands/HelloCommand.js:6-19 | creates references/custom first; a string message is then written to hello.txt and the call returns nothing; a non-string message makes the write throw Node's invalid-data error, which names the type and value received; no remote call |
| HelloCommand.NumberMessageRefused | src/commands/HelloCommand.js:7-16 | a non-zero number as message: the directory is made, then the write throws "… Received type number (<n>)" |
| HelloCommand.MessageFiveRefused | src/commands/HelloCommand.js:7-16 | `{"message": 5}` throws the full invalid-data message ending "Received type number (5)" |
| HelloCommand.HelloOverwrites | src/commands/HelloCommand.js:12-16 | afterwards hello.txt holds exactly this message whatever it held before, every other file is unchanged, and no directory needs to exist beforehand |
| HelloCommand.LastHelloWins | src/commands/HelloCommand.js:16 | two calls in a row leave only the second message |
| HelloCommand.HelloPathIsJoin | src/commands/HelloCommand.js:12-15 | the file is `path.join(cwd, "references/custom", "hello.txt")` |
| FileSystems.FilesAfterConcat | src/commands/ImageGenerateCommand.js:33-78 | performing two traces one after the other is performing their concatenation |
| FileSystems.PreparedConcat | src/commands/ImageGenerateCommand.js:33-78 | two traces that each write only into existing directories concatenate into one that does |
| FileSystems.CallsOnly | src/commands/WebSearchCommand.js:35-40 | remote calls change no file and no directory |
| FileSystems.MkDirThenWrite | src/commands/HelloCommand.js:12-16 | `mkdirp(d)` then a write into `d` works from any state, adds `d` and its ancestors, and changes only that file |
| FileSystems.CallsThenSave | src/commands/WebResearchCommand.js:78-102 | remote calls, `mkdirp(d)` and one write into `d` change exactly that one file |
| FileSystems.FileSystem.constructor | src/commands/HelloCommand.js:13 | an empty disk with only the root directory |
| FileSystems.FileSystem.Read | src/commands/TextAnalyzeCommand.js:18-24 | a file reads back exactly when it exists |
| FileSystems.FileSystem.MkDirP | src/commands/HelloCommand.js:13 | adds the directory and all its ancestors; no file changes |
| FileSystems.FileSystem.WriteFile | src/commands/HelloCommand.js:16 | creates or replaces exactly one file in an existing directory |
| FileSystems.FileSystem.Perform | src/commands/ImageGenerateCommand.js:33-78 | performing a trace leaves the files and directories that `FilesAfter` and `DirsAfter` compute; remote calls change nothing |
| OpenAiImage.ToResult | src/openai_image.js:18-22 | `b64_json` wins over `url`, which wins over the raw item, and each carries its own value |
| OpenAiImage.ToResults | src/openai_image.js:18-22 | one result per item, in order |
| OpenAiImage.FailureMessage | src/openai_image.js:23-28 | a failure with a response becomes "OpenAI API error: " followed by the API's error message when it is a non-empty string, and by the response body as JSON otherwise; a failure without a response is rethrown unchanged |
| OpenAiImage.GenerateImage | src/openai_image.js:3-30 | no key: throws before any request; otherwise one request with model, size and n defaulting to dall-e-2, 1024x1024 and 1; it succeeds exactly when the reply has `data`, mapping each item in order; a reply without `data` and a failed request become errors |
| ImageGenerateCommand.Extension | src/commands/ImageGenerateCommand.js:38-62 | every artifact extension starts with '.' |
| ImageGenerateCommand.ArtifactEffects | src/commands/ImageGenerateCommand.js:33-63 | two steps per result: the `mkdirp` and the write |
| ImageGenerateCommand.SavedPaths | src/commands/ImageGenerateCommand.js:33-63 | `saved` holds each artifact's path, in result order |
| ImageGenerateCommand.MetadataLines | src/commands/ImageGenerateCommand.js:68-77 | seven fixed lines, then the saved paths |
| ImageGenerateCommand.Size | src/commands/ImageGenerateCommand.js:14 | the size option when truthy, else "1024x1024" |
| ImageGenerateCommand.Count | src/commands/ImageGenerateCommand.js:15 | the n option when truthy (0 is not), else 1 |
| ImageGenerateCommand.Model | src/commands/ImageGenerateCommand.js:16 | the model option when truthy, else "dall-e-3" |
| ImageGenerateCommand.ImageGenerate | src/commands/ImageGenerateCommand.js:8-86 | missing prompt, then missing key, throw before any request; otherwise the request is made first; a failed run writes nothing; a successful run saves one artifact per result, in order, then the metadata record |
| ImageGenerateCommand.SaveImages | src/commands/ImageGenerateCommand.js:33-63 | the loop returns the artifact paths in result order and leaves the disk as performing the artifact steps does |
| ImageGenerateCommand.NumberedNamesDistinct | src/commands/ImageGenerateCommand.js:40-56 | two names with the same prefix and digits before a '.'-led extension have the same digits |
| ImageGenerateCommand.ArtifactNamesDistinct | src/commands/ImageGenerateCommand.js:38-62 | results at different positions get different artifact names, whatever their kinds |
| ImageGenerateCommand.Targets | src/commands/ImageGenerateCommand.js:33-63 | one target per result, in images/, under that result's name |
| ImageGenerateCommand.ArtifactWrites | src/commands/ImageGenerateCommand.js:33-63 | the loop writes exactly the targets, in result order |
| ImageGenerateCommand.WrittenConcat | src/commands/ImageGenerateCommand.js:33-78 | the writes of two traces are those of the first, then those of the second |
| ImageGenerateCommand.ArtifactsOnDisk | src/commands/ImageGenerateCommand.js:33-63 | after the loop every artifact is on disk with its content; none overwrites another |
| ImageGenerateCommand.SuccessfulWrites | src/commands/ImageGenerateCommand.js:33-78 | a successful run writes one artifact per result, in order, and the metadata record last |
| ImageGenerateCommand.ArtifactsPrepared | src/commands/ImageGenerateCommand.js:42-58 | every artifact write follows the `mkdirp` of its directory |
| WebSearchCommand.BlockLines | src/commands/WebSearchCommand.js:43-50 | each result is four lines, the last one empty |
| WebSearchCommand.Blocks | src/commands/WebSearchCommand.js:43-50 | one block per item, in response order, numbered from 1 |
| WebSearchCommand.ListingName | src/commands/WebSearchCommand.js:66 | the name starts with the timestamp and "-web-search-" and ends with ".txt" |
| WebSearchCommand.FailureMessage | src/commands/WebSearchCommand.js:71-79 | a 403 names the credentials; anything else is rethrown unchanged |
| WebSearchCommand.WebSearch | src/commands/WebSearchCommand.js:8-80 | missing query, then missing credentials, throw before any request; otherwise the request asks for 10 results; a failed run writes nothing; without `items` nothing is saved; with them the listing is saved under references/ |
| WebSearchCommand.ItemLinesAt | src/commands/WebSearchCommand.js:43-57 | line `4i+j` of the results is line `j` of result `i` |
| WebSearchCommand.ListingLines | src/commands/WebSearchCommand.js:43-57 | for single-line fields the saved listing splits back into the three header lines and four lines per result, in response order, each carrying its number, title, link and snippet |
| WebSearchCommand.ListingSplits | src/commands/WebSearchCommand.js:43-57 | for single-line fields the saved listing splits back into the header lines followed by every result's lines |
| WebSearchCommand.ListingSaved | src/commands/WebSearchCommand.js:63-69 | a run with results changes exactly one file, the listing; a run without them changes none |
| WebResearchCommand.ReportName | src/commands/WebResearchCommand.js:85 | the name starts with the timestamp and "-web-research-" and ends with ".txt" |
| WebResearchCommand.Report | src/commands/WebResearchCommand.js:88-100 | the header lines, the research text and the trailer lines, joined by line feeds |
| WebResearchCommand.FailureMessage | src/commands/WebResearchCommand.js:105-113 | 429 is rate limiting before any API error object is looked at; an API error object gives "OpenAI API error: …"; anything else is rethrown |
| WebResearchCommand.WebResearch | src/commands/WebResearchCommand.js:12-114 | missing topic, then missing key, throw before any request; otherwise the gpt-4o request is made first; it succeeds exactly when the reply has a first choice; a failed run writes nothing; success saves the report under references/ |
| WebResearchCommand.ReportKeepsResearch | src/commands/WebResearchCommand.js:88-100 | the research text can be read back out of the saved report |
| WebResearchCommand.ResearchSaved | src/commands/WebResearchCommand.js:78-102 | a successful run changes exactly one file, the report, and needs no directory beforehand |
| GeminiClient.StripModelsPrefix | src/gemini.js:22 | one leading "models/" is removed; a name without it is unchanged |
| GeminiClient.Endpoint | src/gemini.js:18-23 | the base URL (GEMINI_API_URL or the default), the model and ":generateContent", plus "?key=…" exactly when a key is set |
| GeminiClient.CallFailureMessage | src/gemini.js:48-56 | 429 and 404 get their own messages (404 names the model); anything else is rethrown |
| GeminiClient.Extract | src/gemini.js:58-69 | the parts' texts joined by line feeds when the first candidate has parts; that content object when it has none; otherwise the string `output`, else the JSON of the body |
| GeminiClient.CallGemini | src/gemini.js:17-70 | with a key, exactly one request carrying it; without one, an access token is asked for first, and a missing or failed token stops before the request; the answer or error comes from the reply |
| GeminiClient.StripRemovesOnePrefix | src/gemini.js:22 | only one "models/" prefix is removed |
| GeminiCommand.FileArg | src/commands/GeminiCommand.js:16-27 | the source tries a file whenever `options.file` is truthy; the model takes one exactly when the option is a non-empty string, and that string is the path (a truthy non-string is under "Left out") |
| GeminiCommand.ModelOr | src/commands/GeminiCommand.js:45 | GEMINI_MODEL when set, otherwise the fallback |
| GeminiCommand.Decide | src/commands/GeminiCommand.js:27-38 | text-only exactly without a file; not found exactly when the resolved file is missing; uploaded exactly when a bucket is set and the size is strictly above 1 MiB |
| GeminiCommand.WithFileUrl | src/commands/GeminiCommand.js:44 | the upload prompt starts with the user's prompt and ends with the signed URL |
| GeminiCommand.Ask | src/commands/GeminiCommand.js:27-58 | a missing file throws with no effect; text-only and inline call Gemini with the prompt alone; the upload comes first and its failure stops the run, else Gemini gets the prompt and the URL |
| GeminiCommand.Gemini | src/commands/GeminiCommand.js:10-85 | a missing prompt throws first; any error is rethrown unchanged and nothing is written; success writes the record under references/AI feedback after the calls |
| GeminiCommand.OneMiBStaysInline | src/commands/GeminiCommand.js:33-38 | a file of exactly 1 MiB is not uploaded, even with a bucket |
| GeminiCommand.SentPrompts | src/commands/GeminiCommand.js:44-57 | Gemini only ever receives the prompt, or the prompt and the signed URL; the file's contents are never sent |
| GeminiCommand.GeminiPromptIs | src/gemini.js:25-30 | every generateContent request carries the prompt it was given |
| GeminiCommand.RecordedModelOnUpload | src/commands/GeminiCommand.js:45-73 | on the upload path without GEMINI_MODEL, gemini-1.5-flash is called but the record names gemini-2.5-pro |
| GeminiCommand.RecordShape | src/commands/GeminiCommand.js:70-77 | the record is the Prompt line, a File line exactly when a file was given, the Model, Timestamp and '---' lines, and the answer unless it is empty |
| GeminiCommand.RecordSaved | src/commands/GeminiCommand.js:64-79 | a successful run changes exactly one file, the record, and needs no directory beforehand |
| TextStats.RunsAreRuns | src/commands/TextAnalyzeCommand.js:82 | every match is a non-empty run of characters of the class |
| TextStats.RunsSplitAt | src/commands/TextAnalyzeCommand.js:82 | a character outside the class separates the matches on its two sides |
| TextStats.LineCount | src/commands/TextAnalyzeCommand.js:83 | one more line than line feeds |
| TextStats.ParagraphCount | src/commands/TextAnalyzeCommand.js:84 | at least one paragraph |
| TextStats.SentenceCount | src/commands/TextAnalyzeCommand.js:85 | the number of punctuation runs, and 1 when there are none |
| TextStats.ReadingTime | src/commands/TextAnalyzeCommand.js:92 | the least number of minutes, at least 1, that covers the words at 200 per minute |
| TextStats.SilentE | src/commands/TextAnalyzeCommand.js:142 | at most one match: `$` without the `m` flag is the end of the text |
| TextStats.VowelCount | src/commands/TextAnalyzeCommand.js:141 | never more vowels than characters |
| TextStats.Syllables | src/commands/TextAnalyzeCommand.js:139-144 | at least one syllable |
| TextStats.CountWords | src/commands/TextAnalyzeCommand.js:95-101 | the loop builds the frequency table and its key insertion order |
| TextStats.FreqCounts | src/commands/TextAnalyzeCommand.js:95-101 | a key is counted exactly when it is longer than two characters and occurs, and its count is its number of occurrences |
| TextStats.KeysOfTable | src/commands/TextAnalyzeCommand.js:95-101 | the order in which keys are first assigned lists every key of the table exactly once |
| PropertyOrder.OwnKeys | src/commands/TextAnalyzeCommand.js:103 | `Object.entries` lists the same keys as were assigned, each as often |
| PropertyOrder.OwnKeysOrder | src/commands/TextAnalyzeCommand.js:103 | `Object.entries` lists exactly the assigned keys; every array-index key (a canonical numeral below 2^32 - 1) comes before every other key, the array indexes in ascending numeric order, and the other keys keep their assignment order |
| PropertyOrder.OwnKeysDistinct | src/CommandRegistry.js:61 | listing the keys of an object whose assigned keys are distinct repeats none |
| PropertyOrder.OwnKeysOfTwo | src/CommandRegistry.js:61 | of two keys, an array index assigned second is listed first |
| PropertyOrder.IndexKeyFirst | src/CommandRegistry.js:61 | after registering "b" and then "1", `Object.entries` lists "1" before "b" |
| TextStats.Entries | src/commands/TextAnalyzeCommand.js:103 | one entry per key, in key order, with its count |
| TextStats.SortDescending | src/commands/TextAnalyzeCommand.js:104 | the sort is a permutation of its input |
| TextStats.SortIsStable | src/commands/TextAnalyzeCommand.js:104 | the result is in non-increasing count order, and entries of equal count keep their order |
| TextStats.FirstWords | src/commands/TextAnalyzeCommand.js:105-106 | the words of the first `n` entries, in order |
| TextStats.TopOfIsTop | src/commands/TextAnalyzeCommand.js:103-106 | over any table and key order: the selected words are keys in non-increasing count order, and a key left out means twenty were kept, each counted at least as often |
| TextStats.TopWords | src/commands/TextAnalyzeCommand.js:103-106 | at most twenty top words, sorted from the entries in `Object.entries` order (`PropertyOrder.OwnKeys`) |
| TextStats.TopWordsAreTop | src/commands/TextAnalyzeCommand.js:95-106 | the top words of a text are its counted keys in non-increasing order, and a key left out has a count no larger than every one of the twenty kept |
| TextStats.Clamp | src/commands/TextAnalyzeCommand.js:111 | the result lies in [0, 100] and is the input when that already does |
| TextStats.ReadabilityScore | src/commands/TextAnalyzeCommand.js:111-113 | the score lies in [0, 100], and is 0 for a text without words |
| TextStats.Round | src/commands/TextAnalyzeCommand.js:134 | the nearest integer, halves rounding up |
| TextStats.Level | src/commands/TextAnalyzeCommand.js:115-122 | always one of the seven labels |
| TextStats.LevelMonotone | src/commands/TextAnalyzeCommand.js:115-122 | a higher score never gives a harder level |
| TextStats.LevelBands | src/commands/TextAnalyzeCommand.js:115-122 | each label's band of scores contains the score: 90, 80, 70, 60, 50 and 30 checked from the top |
| TextStats.AverageLength | src/commands/TextAnalyzeCommand.js:87-89 | the mean word length is never negative |
| TextStats.Analyze | src/commands/TextAnalyzeCommand.js:79-137 | words and lines as counted, at least one sentence, paragraph and minute, at most 20 top words, a score in [0, 100] and a level from the table |
| TextStats.WordsOfJoin | src/commands/TextAnalyzeCommand.js:82 | text joined by a non-word character has the words of each part, in order |
| TextStats.LinesOfJoin | src/commands/TextAnalyzeCommand.js:83 | joining with a line feed adds the line counts |
| TextStats.ParagraphsAtMostLines | src/commands/TextAnalyzeCommand.js:83-84 | there are never more paragraphs than lines |
| TextStats.BreaksNeedLineFeeds | src/commands/TextAnalyzeCommand.js:84 | each paragraph break takes two line feeds |
| TextStats.SingleLine | src/commands/TextAnalyzeCommand.js:83-84 | text without a line feed has one line and one paragraph |
| TextStats.CharsAtMostBytes | src/commands/TextAnalyzeCommand.js:80-81 | the character count never exceeds the byte count, and ASCII text has one of each per character |
| TextStats.SyllablesBounds | src/commands/TextAnalyzeCommand.js:139-144 | the silent-e correction removes at most one syllable, and only from a text that has a vowel |
| TextStats.NoWords | src/commands/TextAnalyzeCommand.js:87-122 | text without words reads in one minute, scores 0 at the hardest level, and has no top words |
| TextStats.WordsOfSpacedWords | src/commands/TextAnalyzeCommand.js:82 | words joined by single spaces come back out as the same words |
| TextStats.WordsAroundSeparator | src/commands/TextAnalyzeCommand.js:82 | a separator at either end adds no word |
| TextStats.WordsOfTwoSentences | src/commands/TextAnalyzeCommand.js:82 | two sentences of spaced words give the words of both; the full stops are not words |
| TextStats.IndexWordFirst | src/commands/TextAnalyzeCommand.js:95-106 | two words counted once each, the second an array index and the first not: the array index is the first top word, because `Object.entries` lists it first and the sort is stable |
| TextStats.NumberWordFirst | src/commands/TextAnalyzeCommand.js:95-106 | the words "hello" and "2024" give the top words ["2024", "hello"] |
| TextStats.QuickBrownFoxHasSixWords | src/commands/TextAnalyzeCommand.js:82 | "The quick brown fox. It jumps." holds six words |
| TextAnalyzeCommand.ReportName | src/commands/TextAnalyzeCommand.js:46 | the name starts with the timestamp and "-text-analysis-" and ends with ".txt" |
| TextAnalyzeCommand.Ranked | src/commands/TextAnalyzeCommand.js:65 | line `i` is "  <i+1>. <word i>" |
| TextAnalyzeCommand.StatLines | src/commands/TextAnalyzeCommand.js:56-62 | seven statistics lines, none empty |
| TextAnalyzeCommand.TextAnalyze | src/commands/TextAnalyzeCommand.js:11-77 | a missing path, then a missing file, throw before anything is written; it succeeds exactly when the resolved path names a file (directories and read errors are under "Left out"), returns that file's analysis and saves the report under references/; no remote call |
| TextAnalyzeCommand.ReportHasNoBlankLines | src/commands/TextAnalyzeCommand.js:49-71 | the saved report is the header, the seven statistics, the ranked words and the readability lines, with every blank separator filtered out |
| TextAnalyzeCommand.ReportSaved | src/commands/TextAnalyzeCommand.js:40-73 | a successful run changes exactly one file, the report, and needs no directory beforehand |
| TextAnalyzeCommand.Saved | src/commands/TextAnalyzeCommand.js:39-77 | the success path returns the analysis it was given, makes the references/ directory and then writes the report named by the timestamp and the file's slug, with no remote call |
| TextAnalyzeCommand.LeadingUnderscore | src/commands/TextAnalyzeCommand.js:42-45 | a slug word behind one '_' keeps a leading '-' in this slug; the trimming slug drops it |
| TextAnalyzeCommand.LeadingHyphenKept | src/commands/TextAnalyzeCommand.js:42-45 | a file named "_<word>.txt" gets the slug "-<word>" here, and "<word>" from the other commands' slug |
| WebsiteScreenshotCommand.OutcomeIsPrefix | src/commands/WebsiteScreenshotCommand.js:24-141 | the steps performed are a prefix of all the steps, and all of them when none throws |
| WebsiteScreenshotCommand.OutcomeConcat | src/commands/WebsiteScreenshotCommand.js:24-141 | two lists of steps run one after the other: the second runs only when the first did not throw |
| WebsiteScreenshotCommand.QuietFailure | src/commands/WebsiteScreenshotCommand.js:36-47 | steps that cannot throw all run and end without failure |
| Base.TrimStart | src/commands/WebsiteScreenshotCommand.js:31 | what is left after removing leading white space is a suffix of the text |
| Base.TrimStartShape | src/commands/WebsiteScreenshotCommand.js:31 | the removed prefix is all white space, and what is left starts with a character that is not white space |
| Base.TrimEnd | src/commands/WebsiteScreenshotCommand.js:31 | what is left after removing trailing white space is a prefix of the text |
| Base.TrimEndShape | src/commands/WebsiteScreenshotCommand.js:31 | the removed suffix is all white space, and what is left ends with a character that is not white space |
| Base.TrimPadded | src/commands/WebsiteScreenshotCommand.js:31 | trimming a text padded with white space gives back the text, when it starts and ends with another character |
| WebsiteScreenshotCommand.NumberOf | src/commands/WebsiteScreenshotCommand.js:31 | `Number` of a string is an integer or NaN |
| WebsiteScreenshotCommand.NumberOfMeaning | src/commands/WebsiteScreenshotCommand.js:31 | `Number` of a string that is blank after trimming is 0; otherwise it is NaN exactly when the trimmed text is not a decimal numeral with an optional sign |
| WebsiteScreenshotCommand.NumeralValue | src/commands/WebsiteScreenshotCommand.js:31 | the value of a trimmed text is NaN exactly when it is not a numeral with an optional sign |
| WebsiteScreenshotCommand.NumeralsOfNat | src/commands/WebsiteScreenshotCommand.js:31 | the numeral of a natural number reads back as that number, unsigned, after '+', and negated after '-' |
| WebsiteScreenshotCommand.NumberOfRendering | src/commands/WebsiteScreenshotCommand.js:31 | `Number` reads back the decimal rendering of any integer, with white space around it and, for a natural number, with a '+' |
| WebsiteScreenshotCommand.SpacedViewport | src/commands/WebsiteScreenshotCommand.js:31-32 | the viewport "W x H", with spaces around the 'x', sets the width W and the height H |
| WebsiteScreenshotCommand.DimensionsOfGlued | src/commands/WebsiteScreenshotCommand.js:31 | a viewport made of two texts without 'x' joined by an 'x' gives `Number` of each text |
| WebsiteScreenshotCommand.PaddedDelay | src/commands/WebsiteScreenshotCommand.js:19-52 | a delay string holding an integer, with white space around it or a '+', makes the page wait exactly when that integer is positive |
| WebsiteScreenshotCommand.ListDelay | src/commands/WebsiteScreenshotCommand.js:19-52 | a one-element array delay `[n]` makes the page wait exactly when `n` is positive, since `[n] > 0` compares `n`'s string form |
| WebsiteScreenshotCommand.EmptyListNoDelay | src/commands/WebsiteScreenshotCommand.js:19-52 | an empty array delay never waits, since `[] > 0` compares the empty string |
| WebsiteScreenshotCommand.OneItemText | src/commands/WebsiteScreenshotCommand.js:50 | a one-element array's string form is its element's |
| WebsiteScreenshotCommand.Dimensions | src/commands/WebsiteScreenshotCommand.js:31 | a viewport that is not a string throws "viewport.split is not a function"; the height is undefined exactly when there is no 'x' |
| WebsiteScreenshotCommand.LoadSteps | src/commands/WebsiteScreenshotCommand.js:36-47 | the load steps never throw |
| WebsiteScreenshotCommand.SizeText | src/commands/WebsiteScreenshotCommand.js:63-68 | full-page mode prints the scroll size, otherwise the viewport's width and height (undefined when missing) |
| WebsiteScreenshotCommand.MetadataLines | src/commands/WebsiteScreenshotCommand.js:106-124 | sixteen lines, the feedback at line 14 |
| WebsiteScreenshotCommand.Feedback | src/commands/WebsiteScreenshotCommand.js:144-203 | an error body, the first part's text or the fallback; a 429, an API error object or any other failure each become their own text; never empty and never thrown |
| WebsiteScreenshotCommand.ErrorMessage | src/commands/WebsiteScreenshotCommand.js:136-141 | a "net::ERR_" message becomes "Failed to load URL: …"; anything else is rethrown unchanged |
| WebsiteScreenshotCommand.Execute | src/commands/WebsiteScreenshotCommand.js:11-142 | a missing URL throws first; otherwise the browser launch comes first; it succeeds exactly when every step does, returning the two saved paths, the title and the URL after all capture and save steps; a failure reports the first throwing step's message through the catch block |
| WebsiteScreenshotCommand.LaunchFirst | src/commands/WebsiteScreenshotCommand.js:27 | the launch is the first thing the browser is asked to do |
| WebsiteScreenshotCommand.NoCloseInCapture | src/commands/WebsiteScreenshotCommand.js:27-75 | no step from the launch to the screenshot closes the browser |
| WebsiteScreenshotCommand.FinishOutcome | src/commands/WebsiteScreenshotCommand.js:78-126 | after the screenshot only a URL without a host or a failed close can fail; otherwise the saves all happen |
| WebsiteScreenshotCommand.LoadState | src/commands/WebsiteScreenshotCommand.js:36-47 | the page ends DOM-ready, fully loaded after the fallback, or partial, exactly by the two attempts' outcomes |
| WebsiteScreenshotCommand.LoadAttempts | src/commands/WebsiteScreenshotCommand.js:36-47 | DOMContentLoaded with 60 s first, load with 30 s only when that failed, and the run always goes on |
| WebsiteScreenshotCommand.NavigationNeverAborts | src/commands/WebsiteScreenshotCommand.js:36-47 | whatever the two navigations do, the run returns or fails exactly as it otherwise would |
| WebsiteScreenshotCommand.CaptureFailuresAgree | src/commands/WebsiteScreenshotCommand.js:36-47 | for a given url, the capture steps, the metadata and the whole run fail at the same step whatever the two navigations answer |
| WebsiteScreenshotCommand.LeftOpenOnEarlyFailure | src/commands/WebsiteScreenshotCommand.js:89 | when a step before the close throws, or the URL has no host, the run fails and the browser is never closed |
| WebsiteScreenshotCommand.DomainDropsLeadingWww | src/commands/WebsiteScreenshotCommand.js:79 | a leading "www." is removed, and only that one |
| WebsiteScreenshotCommand.DomainWithoutWww | src/commands/WebsiteScreenshotCommand.js:79 | a host without "www." is its own domain |
| WebsiteScreenshotCommand.DomainCutsMiddleWww | src/commands/WebsiteScreenshotCommand.js:79 | the first "www." is cut out wherever it occurs, even mid-host |
| Server.NamesOf | server.js:42-86 | one name per registration, in order |
| Server.RegistrationNames | server.js:42-86 | seven registrations with seven distinct names, in the listed order |
| Server.NextRegistration | server.js:42-86 | registering the next of distinct names extends the table and the key order by exactly that entry |
| Server.RegisterNext | server.js:42-86 | one `register` call takes the registry from the first `k` registrations to the first `k + 1` |
| Server.RegisterSeven | server.js:39-86 | seven distinct registrations on a new registry keep all seven entries, in registration order |
| Server.Startup | server.js:29-86 | creates references/uploads, references/AI feedback and images, then holds the seven commands, hello first and website-screenshot last |
| Server.ErrorText | server.js:169 | the error's message, or "Unknown error occurred" when it is empty; never empty |
| Server.Respond | server.js:141-172 | no command gives 400; an unknown one gives 404 and runs nothing; otherwise the command runs on the given args (an empty object when they are missing), giving 200 with its result or 500 with its message |
| Server.PostExecute | server.js:141-172 | the route, asking the registry, responds as `Respond` over the registry's table |
| Server.RespondStatuses | server.js:141-172 | only 200, 400, 404 and 500 are sent; 200 exactly when a registered command completed; nothing runs for an unregistered name; an error body is never empty |
| Server.RespondMissing | server.js:141-172 | a registered command called without its required argument is answered 500 with that command's own message, and nothing runs |
| Server.ListedAreRegistered | server.js:94-135 | the command list names exactly the registered commands, in the same order, so a listed name never gets 404 |
| Server.ImageItems | server.js:180-187 | every entry of images/, files or not, with its name, type, path and size |
| Server.ReferenceItems | server.js:189-198 | only reference items, each with its own path |
| Server.ListFiles | server.js:178-208 | the total is the number of images plus the number of references |
| Server.ReferenceItemsExact | server.js:189-198 | a listed reference is exactly a regular file of the directory, with its name and size |
| Server.TotalCountsFiles | server.js:200-204 | the total counts every entry of images/ and every regular file of references/ |
| Server.ServeAsWritten | server.js:214-231 | denied exactly when the joined path's text does not start with the base's text; a file is sent only when it exists |
| Server.RenderExtends | server.js:216-219 | a path below a directory renders with that directory's rendering as a prefix |
| Server.SiblingPrefixPasses | server.js:216-221 | "../<b><t>/<f>" from <d>/<b> resolves outside <d>/<b> but still passes the textual guard |
| Server.SiblingPassesGuard | server.js:214-231 | with images/ at /srv/images, "../images-old/a" is served from /srv/images-old/a |
| Server.Serve | server.js:214-254 | a file is sent only from strictly below the base directory; a plain name is sent when it exists and is missing otherwise |
| Server.GuardsAgreeOnPlainNames | server.js:237-254 | for a plain file name the guard as written and the corrected one answer alike |
| WebUi.Buttons | public/app.js:85-100 | a button only for a command with a form, and one for every such listed command |
| WebUi.ButtonsWhenAllConfigured | public/app.js:85-100 | when every listed command has a form, the buttons are the listed names in order |
| WebUi.NameConfigured | public/app.js:2-59 | every registered name has a form |
| WebUi.AllListedGetButtons | public/app.js:77-105 | the buttons are exactly the registered names, in the server's order |
| WebUi.ParseInt | public/app.js:207 | `parseInt` gives a number or NaN |
| WebUi.ReadField | public/app.js:203-210 | a checkbox gives its ticked state; a number field is undefined exactly when empty and is otherwise a number or NaN; a text field gives its text |
| WebUi.GatherArgs | public/app.js:196-215 | the gathering loop yields the argument bag `Gathered` describes |
| WebUi.GatheredKeys | public/app.js:199-215 | only the form's own field names appear in the bag |
| WebUi.GatheredValues | public/app.js:199-215 | with distinct names, a field is present exactly when its input exists and its value is neither undefined nor '', and then holds that value |
| WebUi.Validate | public/app.js:218-223 | no message exactly when every required field is filled; otherwise the message of the first required field left blank |
| WebUi.Submit | public/app.js:189-239 | no command selected is refused; a command without a form crashes on `config.fields`; otherwise the form is gathered, and a request carrying that command and exactly the gathered arguments is sent if and only if the required-field check passes, while a failed check is refused with the check's message |
| WebUi.Page.constructor | public/app.js:61 | no command is selected at first |
| WebUi.Page.Select | public/app.js:108-110 | the selected command becomes the given one |
| WebUi.Page.Execute | public/app.js:189-239 | pressing Execute, with the form gathered by the loop, behaves as `Submit` for the selected command: refused, crashed, or posted with the gathered arguments exactly when they pass the check |
| WebUi.OneFieldArgs | public/app.js:199-215 | a one-field form can only send that field's argument |
| WebUi.MismatchedFormFails | public/app.js:35-48 | a one-field form whose field is neither the command's required argument nor `_` gets 500 with the command's missing-argument message for every request it sends, and nothing runs |
| WebUi.SentWithout | public/app.js:35-48 | a one-field form not named `key` sends neither `key` nor a positional argument |
| WebUi.TextAnalyzeFromUiFails | public/app.js:35-41 | every text-analyze request from the page gets 500 with the missing-path error and runs nothing |
| WebUi.WebResearchFromUiFails | public/app.js:42-48 | every web-research request from the page gets 500 with the missing-topic error and runs nothing |
| WebUi.TextAnalyzeFormIsSent | public/app.js:218-239 | a filled text-analyze form passes the page's own check and is sent |
| WebUi.LastPiece | public/app.js:375 | the text after the last separator, holding no separator; all of it when there is none |
| WebUi.LastPieceOfSplit | public/app.js:368 | `split(c).pop()` is that last piece |
| WebUi.SliceTo | public/app.js:376 | `slice(0, end)` with JavaScript's counting from the end for a negative end |
| WebUi.TruncateFilename | public/app.js:373-378 | a name within the limit is unchanged; a longer one ends in "..." and its extension |
| WebUi.Truncated | public/app.js:373-378 | a long name becomes a prefix of itself, "..." and its extension, one shorter than the limit when the extension leaves room |

## Left out

- Remote services are parameters, not calls: the OpenAI, Gemini and Custom Search replies, the Google access token, the cloud-storage upload (src/gcs.js) and the browser's answers. The model covers every branch on their outcomes, not their wire formats.
- The request bodies and headers sent to remote services are named by their key fields only (model, prompt, size, n; query, key, engine id, count). Temperature, token limits, system prompts and the screenshot's base64 payload are not modelled.
- Clock readings (`Date.now()`, `new Date().toISOString()`) are parameters. One reading is used for a command's file names and its timestamp line.
- Floating point is not modelled bit for bit. The average word length and the Flesch score are computed on exact rationals, so `toFixed(2)` and `Math.round` can differ at exact halves.
- formatFileSize (public/app.js:380-386) is left out, because it uses `Math.log` on floating point.
- Unicode is not modelled. `toLowerCase` is modelled on ASCII only, and `\s` uses the ECMAScript white-space set.
- Base.TextArg: a truthy non-string argument, such as a number from a JSON body, is treated as absent, whereas the JavaScript would use it and fail later at a string method.
- HelloCommand.Hello: a number message is rendered in decimal in the error. JavaScript renders a number of magnitude 1e21 or more in exponent form, and such a number is not an exact integer anyway.
- GeminiCommand.FileArg: a truthy `file` option that is not a string is treated as no file, so the model makes a text-only call and saves a record. The source passes it to `path.resolve`, whose TypeError the catch block rethrows: no request and no record.
- TextStats.TopWords: the keys "constructor" and "__proto__" are counted like any other word. In the source, `wordFreq` is a plain object: "constructor" starts from the inherited `Object` function, so its count becomes a string and the sort comparator gives NaN; an assignment to "__proto__" is ignored, so that word is never listed. The order of the entries is modelled (`PropertyOrder.OwnKeysOrder`).
- WebsiteScreenshotCommand.NumberOf: `Number` is modelled for white space, an optional sign and decimal digits only. Fractions, exponents ("1e3"), the prefixes 0x, 0o and 0b, and "Infinity" give NaN in the model, but numbers in JavaScript.
- WebsiteScreenshotCommand.Execute: the hostname that `new URL(url)` finds is the browser parameter `host` (None when the constructor throws), not derived from `url`. The URL parser (scheme, user info, port, case folding, international names) is not modelled, so the domain in the file names is tied to the URL only through that parameter.
- TextAnalyzeCommand.TextAnalyze: the file system holds only files, so a path naming a directory is reported as "File not found: …", where the source passes `existsSync` and `readFileSync` then throws EISDIR. Read errors such as EACCES, and failures of `mkdirp` and `writeFileSync` in every command, are not modelled: these operations always succeed.
- GeminiCommand.Decide: a path naming a directory is likewise reported as not found, where the source's `statSync` succeeds and `readFileSync` throws EISDIR, which `GeminiCommand.Gemini` would rethrow.
- An `args` body that is not an object, and prototype keys such as `__proto__` or `constructor` in the registry's table, are not modelled.
- Console output (`console.log`/`console.error`) is not modelled, because it does not affect behaviour.
- The yargs command line (src/index.js) is not part of this model. `buildYargsConfig` is modelled up to the declarations it makes.
- test-gemini.js is not part of this model, because it is a manual script.
- In the web page, DOM rendering, `renderInputFields`, the file list display, the image modal, timers and `showStatus` are left out. The form is modelled as a map from field name to input value.
- Concurrency is not modelled: two requests running at once and the asynchronous interleaving of awaits. Each request is modelled as running alone.
- `res.sendFile` and `existsSync` are modelled by a set of existing paths. Sending a directory and file-system errors inside the routes (their 500 branches) are left out.
- GET /api/files models a directory listing's read errors only as a missing directory. Its 500 branch is left out.
- `mkdirp.sync` at startup is modelled as three effects, not executed against a file system.
- Express middleware (body parsing limits, static files, CORS) and `app.listen` are left out.

## Findings

| source | as written | input that shows it | evidently intended | confidence | as-written member | corrected member |
|---|---|---|---|---|---|---|
| server.js:216-221 | the directory-traversal guard checks that the joined path's text starts with the images directory's text, so a sibling directory whose name extends it passes | the file name "../images-old/a" (URL-encoded slashes arrive decoded) with images/ at /srv/images serves /srv/images-old/a; the same holds for references/ at server.js:239-244 | only files strictly below the base directory are served | not executed | Server.SiblingPassesGuard | Server.Serve |
