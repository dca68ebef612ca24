# Slidev multi-deck build, modelled in Dafny

The repository's one script, `scripts/build-all.js`, turns every slide deck
under `presentations/` into a static site under `dist/`. It empties `dist`,
lists `presentations/`, and keeps each entry that holds a `slides.md`. For
each kept entry it runs `npx slidev build` with a per-deck `--base` and
`--out`, one deck after the other. Then it writes `dist/index.html`, a
landing page with one link per deck. A build that fails throws out of the
loop: no later deck is looked at or built, and no index is written.

This project models that script in the following modules:

- `Titles` (`titles.dfy`): the display title of a deck,
  `name.replace(/-/g, ' ').replace(/\b\w/g, l => l.toUpperCase())`. It is
  written as the regular-expression engine runs it, a left-to-right scan
  that remembers whether the previous character was a word character. It is
  proved equal to a per-character rule (`ExpectedTitleChar`).
- `IndexPage` (`index_page.dfy`): the landing page. It holds the fixed page
  head and foot as string constants with the script's exact text, and the
  per-deck anchor template. The deck list is `map(...).join('')`.
- `BuildCommands` (`build_commands.dfy`): the paths (`path.join` of the
  repository root with `presentations`, `dist` and the deck name) and the
  shell command of one deck's build. A reader of the template's own shape
  (`ParseBuildCommand`) takes the command back apart; it strips the fixed
  text and splits at the first `"` and the first space, and does no
  quoting, expansion or `;`/`&&` handling. A path resolver
  (`Resolve`) shows where `--out` lands.
- `BuildAll` (`build_all.dfy`): `buildAllPresentations` as a method with
  the script's loop. The outside world is parameters: `entries` is what
  `readdir` returns, `hasSlides(n)` says whether `<n>/slides.md` exists, and
  `buildSucceeds(n)` says whether deck `n`'s build exits with 0. The method
  returns the trace of effects it has on the world (reset of `dist`, the
  listing, each probe, each build with its command and result, the index
  write) and how the run ends. It is proved equal to a specification
  function, `Run`, built from a per-entry step (`Scan`, `Step`). The
  lemmas about `Run` state what the script promises. `Replay` plays a trace
  on the top level of `dist` to give the directory a run leaves behind.
- `Options` (`options.dfy`): the optional-value datatype.
- `Seqs` (`seqs.dfy`): generic facts about sequences (regrouping a
  concatenation, splitting around an index) that the proofs cite.

## Model

| member | source | states |
|---|---|---|
| `Titles.IsWordChar` | scripts/build-all.js:94 | the class `\w` of the regular expression without the `u` flag: ASCII letters, digits and `_` |
| `Titles.ToUpper` | scripts/build-all.js:94 | `toUpperCase` of a character that `\w` matched: `a`-`z` become the upper-case letter at the same place in the alphabet, every other character is kept, and a word character stays one |
| `Titles.ReplaceDashes` | scripts/build-all.js:94 | `replace(/-/g, ' ')`; the result has the input's length (its characters are stated by `ReplaceDashesAt`) |
| `Titles.CapitalizeWords` | scripts/build-all.js:94 | `replace(/\b\w/g, l => l.toUpperCase())` as the left-to-right scan of the regular-expression engine; the result has the input's length (its characters are stated by `CapitalizeWordsAt`) |
| `Titles.Title` | scripts/build-all.js:94 | the deck's display title, the two replacements in the script's order; it has the name's length (its characters are stated by `TitleAt`) |
| `Titles.ReplaceDashesAt` | scripts/build-all.js:94 | `replace(/-/g, ' ')` turns each `-` into a space and keeps every other character |
| `Titles.CapitalizeWordsAt` | scripts/build-all.js:94 | the global `\b\w` replacement upper-cases a character exactly when it is a word character and the character before it (or the start of the string) is not one |
| `Titles.TitleAt` | scripts/build-all.js:94 | each title character is the name's character upper-cased at a word start, a space for a `-`, and unchanged otherwise |
| `Titles.TitleChanges` | scripts/build-all.js:94 | the title has the name's length, contains no `-`, and differs from the name only by `-` becoming a space or an ASCII lower-case letter becoming upper-case |
| `Titles.TitleKeepsWordChars` | scripts/build-all.js:94 | a title character is a word character exactly when the name's character at that position is |
| `Titles.TitleIdempotent` | scripts/build-all.js:94 | titling a title gives the same title |
| `Titles.TitleIs` | scripts/build-all.js:94 | a string made of the expected characters is the title |
| `Titles.TitleExamples` | scripts/build-all.js:94 | `deep-dive` gives `Deep Dive`, `intro` gives `Intro`, and the empty name gives the empty title |
| `Titles.TitleWordCharExamples` | scripts/build-all.js:94 | `_` and digits count as word characters: `a_b` gives `A_b` and `1st-talk` gives `1st Talk` |
| `IndexPage.IndexBody` | scripts/build-all.js:92-97 | `validPresentations.map(...).join('')`: the anchors of the decks concatenated in order (stated by `IndexBodyAppend`, `IndexBodyAnchorAt` and `IndexBodyLength`) |
| `IndexPage.IndexHtml` | scripts/build-all.js:34-103 | the whole `indexHtml` template: the fixed head, the deck list, the fixed foot, with the script's exact text (stated by `IndexHtmlShape` and `IndexHtmlExample`) |
| `IndexPage.Anchor` | scripts/build-all.js:93-96 | an anchor is a fixed number of characters plus three times the name's length (the name twice and a title of the same length) |
| `IndexPage.AnchorShowsDeck` | scripts/build-all.js:93-95 | the anchor holds `href="./<name>/"`, then the deck's title, then the path text `/<name>/`, at fixed positions |
| `IndexPage.AnchorInjective` | scripts/build-all.js:93-96 | two decks with the same anchor have the same name |
| `IndexPage.IndexBodyAppend` | scripts/build-all.js:92-97 | the joined anchors of `a + b` are those of `a` followed by those of `b` |
| `IndexPage.IndexBodyAnchorAt` | scripts/build-all.js:92-97 | the `k`-th deck's anchor sits right after the anchors of the decks before it and right before those of the decks after it |
| `IndexPage.IndexBodyLength` | scripts/build-all.js:92-97 | the body has one anchor's fixed overhead per deck plus three times the total length of the names |
| `IndexPage.IndexHtmlShape` | scripts/build-all.js:34-103 | with no decks the page is the fixed head and foot alone; otherwise the first deck's anchor follows the head directly |
| `IndexPage.IndexHtmlExample` | scripts/build-all.js:92-97 | decks `intro` and `deep-dive` give a page with their two anchors in that order, titled `Intro` and `Deep Dive` |
| `BuildCommands.PresentationsDir` | scripts/build-all.js:6 | `presentationsDir`, the root followed by `/presentations` |
| `BuildCommands.DistDir` | scripts/build-all.js:7 | `distDir`, the root followed by `/dist` |
| `BuildCommands.PresentationPath` | scripts/build-all.js:18 | `presentationPath`, the deck's directory under `presentationsDir` (its parts are stated by `DeckDirSegments`) |
| `BuildCommands.BaseOption` | scripts/build-all.js:26 | the value of `--base`, `/slidev/<name>/` (stated by `BaseIsUnderSlidev`) |
| `BuildCommands.OutOption` | scripts/build-all.js:26 | the value of `--out`, `../../dist/<name>` (where it lands is stated by `OutputLandsInDist`) |
| `BuildCommands.BuildCommand` | scripts/build-all.js:26 | `buildCommand`, the template with the quoted directory, `--base` and `--out` (read back by `BuildCommandRoundTrip`) |
| `BuildCommands.SplitAt` | scripts/build-all.js:26 | the text before the first separator and the text after it recompose the input, and the first part holds no separator |
| `BuildCommands.ParseTemplate` | scripts/build-all.js:26 | every command of the template's shape reads back into its directory, base and output |
| `BuildCommands.BuildCommandRoundTrip` | scripts/build-all.js:18-26 | for a deck name and a root path that need no quoting, the template reader gets back from the command the deck's directory as the working directory, `/slidev/<name>/` as `--base` and `../../dist/<name>` as `--out` |
| `BuildCommands.DeckDirSegments` | scripts/build-all.js:6-18 | the deck's directory is `<root>/presentations/<name>` |
| `BuildCommands.OutputLandsInDist` | scripts/build-all.js:6-26 | `--out` resolved from the deck's directory is `<root>/dist/<name>`, the deck's directory in `dist` |
| `BuildCommands.BaseIsUnderSlidev` | scripts/build-all.js:26 | the base URL path is `/slidev/<name>/` |
| `BuildAll.StepEffects` | scripts/build-all.js:18-27 | what one entry does to the world: the `slides.md` probe, then the deck's build command with its result when the probe succeeds |
| `BuildAll.Step` | scripts/build-all.js:17-30 | one pass of the loop body: push the deck when it has slides, then run its build, which throws when it fails |
| `BuildAll.Run` | scripts/build-all.js:10-105 | the whole run: reset `dist`, list the decks, the loop, and the index write unless a build threw (its properties are stated by `RunCompleted`, `RunAborted`, `RunCompletesIff`) |
| `BuildAll.Scan` | scripts/build-all.js:17-31 | once the loop has failed, the last deck in `validPresentations` is the one whose build threw |
| `BuildAll.ScanStopsAtFailure` | scripts/build-all.js:27 | after a build throws, the later entries change nothing |
| `BuildAll.BuildAllPresentations` | scripts/build-all.js:14-31 | the script's loop produces exactly the trace and the ending that `Run` specifies |
| `BuildAll.RunStopsAt` | scripts/build-all.js:17-31 | when entry `i` is the first to fail, the run is the setup, the loop's effects up to `i`, the probe and failing build of entry `i`, and ends `Aborted` with the decks before it |
| `BuildAll.FilterKeepsExactly` | scripts/build-all.js:21-22 | a name is kept exactly when it is an entry with slides |
| `BuildAll.ScanKeepsDecksWithSlides` | scripts/build-all.js:17-22 | without a failure, `validPresentations` is the entries with slides, in listing order, and nothing else |
| `BuildAll.ScanTrace` | scripts/build-all.js:17-27 | without a failure, every entry was probed in order, each kept deck was built once in order with its own command, and nothing was written |
| `BuildAll.ScanBuildsSucceeded` | scripts/build-all.js:27 | without a failure, every kept deck's build succeeded |
| `BuildAll.ScanFailure` | scripts/build-all.js:17-27 | a failed loop failed at one entry with slides whose build fails, and the entries before it went through without failure |
| `BuildAll.RunCompleted` | scripts/build-all.js:10-105 | a completed run reset `dist` first, probed every entry, built exactly the entries with slides in listing order, and wrote once, last, the index of exactly those decks |
| `BuildAll.RunAborted` | scripts/build-all.js:17-105 | an aborted run stopped at the first deck whose build fails: the decks before it were built, no later entry was probed or built, and no index was written |
| `BuildAll.RunCompletesIff` | scripts/build-all.js:27-105 | a run completes exactly when every deck with slides builds |
| `BuildAll.Apply` | scripts/build-all.js:10-11 | the effect of one interaction on the top level of `dist`: the reset empties it, a successful build adds the deck's directory `dist/<deck>` (line 26, `--out`; for deck names that `sh` leaves whole, see "## Left out"), and the index write (line 105) sets the page |
| `BuildAll.Replay` | scripts/build-all.js:10-105 | the `dist` a trace leaves behind, its effects applied in order (stated by `DistAfterRun`) |
| `BuildAll.DistAfterRun` | scripts/build-all.js:10-105 | whatever `dist` held before, afterwards it holds one directory per built deck and nothing else, and the index of those decks exactly when the run completed (for deck names that `sh` leaves whole, see "## Left out") |
| `BuildAll.RerunLeavesSameDist` | scripts/build-all.js:10-11 | running the script again on unchanged input leaves the same `dist` |

## Left out

- File system and process failures other than a failing build are not modelled. This covers `fs.remove`, `fs.ensureDir`, `fs.readdir` and `fs.writeFile` throwing, for example when `presentations/` is missing. Each would end the run by the same exception path.
- `fs.pathExists` and `readdir` are the parameters `hasSlides` and `entries`. The model does not tell a `slides.md` file from a directory of that name; the script does not either.
- `execSync` and the Slidev renderer are the parameter `buildSucceeds`. Its inherited standard streams and its output files are not modelled.
- RunCompleted: a deck directory named `index.html` that holds a `slides.md` is not told apart. Its build writes the directory `dist/index.html/`, so the write of the index at line 105 then fails with `EISDIR` and the run rejects without an index. The model treats that run as `Completed` with the page written.
- RunCompletesIff: for the same reason, a run over a deck named `index.html` whose build succeeds does not complete in the script, although every deck builds; the model says it completes.
- DistAfterRun: for the same reason, after a run that built a deck named `index.html` the model reports the index page written beside that deck; in the script `dist/index.html` is the deck's directory and no page is written.
- BuildAllPresentations: for the same reason, its trace ends with the index write for a run that built a deck named `index.html`, where the script's write throws.
- DistAfterRun: a successful build is taken to write `dist/<deck>` for every deck name. Line 26 puts the name into the `--base` and `--out` words without quotes, so `sh` splits or rewrites names holding whitespace, `\`, quotes, glob characters or other shell metacharacters. For the deck `a b` the renderer is asked for `--out ../../dist/a`, with `b/` and `b` as stray arguments, and `a\b` becomes `dist/ab`. For such names the model's `dist` is not what the script produces, and the index still links `./a b/`. The claim holds for names satisfying `IsPlainName` (ASCII letters, digits, `_`, `-` and `.`).
- Apply: for the same reason, a successful build adds `dist/<deck>` only for deck names that `sh` leaves whole in the unquoted `--out` word.
- OutputLandsInDist: `..` is resolved textually. If a deck directory under `presentations/` is a symbolic link, the operating system resolves `--out` against the link's target, and the output need not land in the root's `dist`.
- DistAfterRun: a build that fails is taken to leave no deck directory behind. The renderer may leave a partial one, which the model does not know about.
- Console logging (lines 23, 29 and 107-110) is not modelled.
- The process exit status is not modelled. A failing build rejects the promise of `buildAllPresentations`. The top-level `.catch(console.error)` (line 113) logs that rejection and swallows it, so the script itself sets no non-zero exit status. The model says only that the run is `Aborted`.
- BuildCommandRoundTrip: the round trip is proved only for deck names made of ASCII letters, digits, `_`, `-` and `.`, and for a root path with no `"`, `\`, `$` or backquote. It is stated for the template reader `ParseBuildCommand`, not for `sh`: that `sh` reads such a command the same way is argued (none of these characters is special to it), not proved. The script quotes only the directory. A deck name with a space or a shell metacharacter such as `;` would change what `sh` passes as `--base` and `--out`, although the template reader still splits it as the template does; the model keeps the command as the exact string the script builds and proves nothing about how `sh` reads such names.
- `path.join` is modelled as joining with `/`. This matches `path.join` for an absolute, normalised root other than `/` and for `readdir` entries, which never contain `/` and are never `.` or `..`. For the root `/` itself, `path.join` gives `/presentations` where the model gives `//presentations`; the model does not normalise paths.
- Strings are sequences of Unicode characters, where JavaScript strings are UTF-16 code units. `\w` and the upper-casing touch only ASCII characters, so titles agree except that a character outside the Basic Multilingual Plane counts once here and twice in JavaScript.
- The `async`/`await` structure is modelled as the sequential run it is.
