# Contacts plugin: new contact note creation, modelled in Dafny

This project models the note-creation core of the Obsidian "Contacts" plugin
(`src/file/file.ts`). When the user asks for a new contact, the plugin:

- looks up the configured contacts folder;
- shows a notice if it is missing;
- otherwise scans every note under the folder for the word `Contact`, optionally followed
  by whitespace-separated numbers;
- picks the next free number;
- asks the vault to create `Contact <n>.md` with the content of the chosen template.

The model has five modules:

- `Text` (`text.dfy`). JavaScript's whitespace class, which serves both `\s` and `trim`. It also
  holds the ASCII digit class, `trim`, `parseInt` on a digit string, and `Number.prototype.toString`
  on naturals, with their round trips.
- `ContactRegex` (`contact_regex.dfy`). The matches that `matchAll` returns for the global regex
  `Contact(?<number>\s\d+)*`. Scanning starts at index 0 and resumes at each match's end. The
  repetition is greedy, and the group keeps the capture of its last repetition.
- `Numbering` (`numbering.dfy`). The traversal callback and `findNextFileNumber`, as methods with
  loops. They are proved against right folds (`ScanMatches`, `NextNumber`). The fold is in turn
  characterised without reference to order: it is the least number that meets every match's
  demand. This module also holds `findContactFiles`.
- `Templates` (`templates.dfy`). The two built-in templates, verbatim, and `getNewFileContent`.
- `ContactFile` (`contact_file.dfy`). `createContactFile` returns its effect as a value: the
  notice it would show, or the create request it would send to the vault.

## Model

| member | source | states |
|---|---|---|
| ContactRegex.FindFrom | src/file/file.ts:71-72 | the first occurrence of `Contact` at or after the search position, or none when there is none |
| ContactRegex.Repetitions | src/file/file.ts:71 | the greedy `(\s\d+)*` tail is a chain of repetitions from the end of `Contact`, each one whitespace char then a maximal digit run, and it stops where no further whitespace-then-digit follows; it captures nothing iff it consumed nothing; the captured span is the last repetition |
| ContactRegex.ChainExtends | src/file/file.ts:71 | one whitespace char and a maximal digit run in front of a repetition chain form a chain |
| ContactRegex.MatchAtWellFormed | src/file/file.ts:71 | a match starts on `Contact` and captures, if anything, one whitespace char followed by a non-empty digit run |
| ContactRegex.MatchesFrom | src/file/file.ts:72 | the matches from a position are empty iff `Contact` does not occur there or later; each is well formed, and they do not overlap and are in order |
| ContactRegex.Matches | src/file/file.ts:72 | `matchAll` over a basename yields nothing iff the basename does not contain `Contact` |
| ContactRegex.EveryOccurrenceMatched | src/file/file.ts:71-72 | every occurrence of `Contact` starts one of the matches, so no occurrence is swallowed by an earlier match |
| ContactRegex.NoOccurrenceInsideMatch | src/file/file.ts:71 | a match ends no later than the next occurrence of `Contact` |
| ContactRegex.BareMatch | src/file/file.ts:71 | `Contact` not followed by whitespace-then-digit matches with no `number` group |
| ContactRegex.NumberedName | src/file/file.ts:71-72 | the basename `Contact <digits>` has exactly one match, whose group is the space and the digits |
| ContactRegex.SpaceEndedName | src/file/file.ts:71-72 | in `Contact ` the trailing space is not consumed and the group is absent |
| ContactRegex.BareName | src/file/file.ts:71-72 | `Contact` alone has one match without a group |
| ContactRegex.LastRepetitionCaptured | src/file/file.ts:71-72 | in `Contact 3 9` the match spans both numbers and the group holds the last one, ` 9` |
| ContactRegex.UnanchoredMatch | src/file/file.ts:71-72 | `Contact` is found anywhere in the basename, as in `My Contact List` |
| Text.TrimStart | src/file/file.ts:79 | `trim` removes only leading whitespace, and the result is a tail of the input that does not start with whitespace |
| Text.TrimEnd | src/file/file.ts:79 | `trim` removes only trailing whitespace, and the result is a prefix of the input that does not end with whitespace |
| Text.DigitRunEnd | src/file/file.ts:81 | `parseInt` reads the maximal run of digits at the start of its argument |
| Text.NatToString | src/file/file.ts:86 | `toString` on a natural number gives a non-empty digit string that starts with `0` only for 0 |
| Text.TrimSpaceThenDigits | src/file/file.ts:79 | trimming one whitespace char followed by digits gives the digits |
| Text.ParseIntOfDigits | src/file/file.ts:81 | `parseInt` on a digit string is its decimal value |
| Text.ParseIntOfNatToString | src/file/file.ts:81-86 | `parseInt` reads back what `toString` prints for every natural number |
| Text.DigitsValueOfNatToString | src/file/file.ts:86 | the printed numeral has the number as its decimal value |
| Text.NatToStringOfDigits | src/file/file.ts:86 | a canonical numeral (no leading zero unless it is `0`) is what `toString` prints for its value |
| Text.DigitsValuePositive | src/file/file.ts:80-82 | a numeral without a leading zero has value at least 1 |
| Numbering.Step | src/file/file.ts:73-83 | one match's update, with its branches as written, raises the accumulator to the match's demand: 1 for a bare match, the captured number plus one otherwise |
| Numbering.VisitContactNote | src/file/file.ts:66-85 | the traversal callback skips non-files and otherwise leaves `nextNumber` as the fold of the per-match update over the basename's matches |
| Numbering.FindNextFileNumber | src/file/file.ts:60-87 | the returned suffix is the decimal form of the accumulated number, or empty for 0; it is empty iff no visited file's basename contains `Contact` |
| Numbering.Suffix | src/file/file.ts:86 | the suffix is empty iff the number is 0; otherwise it is a numeral without a leading zero that `parseInt` reads back as the number |
| Numbering.Files | src/file/file.ts:39-47 | the collected entries are exactly the visited files, each as often as it is visited, and no folders |
| Numbering.FindContactFiles | src/file/file.ts:39-47 | the loop pushes exactly the visited files, in visiting order |
| Numbering.ScanMatchesBounds | src/file/file.ts:72-84 | scanning one basename never lowers the accumulator, meets every match's demand, and ends either unchanged or exactly at some match's demand |
| Numbering.NextNumberBounds | src/file/file.ts:65-85 | the scan result meets every demand of every visited file and, unless 0, equals one of them |
| Numbering.NextNumberIsLeastBound | src/file/file.ts:65-86 | the scan result is the least number that is at least 1 when a bare `Contact` occurs and above every captured number |
| Numbering.AboveEveryCapturedNumber | src/file/file.ts:73-83 | the result is strictly greater than every number a `number` group captured, and at least 1 when a bare `Contact` occurs |
| Numbering.SameFilesSameNumber | src/file/file.ts:66-69 | any two traversals visiting the same set of files give the same number, whatever folders and repeats they contain |
| Numbering.OrderIndependent | src/file/file.ts:66-84 | the number does not depend on the order in which the traversal visits entries |
| Numbering.FoldersIgnored | src/file/file.ts:67-69 | dropping every folder entry leaves the number unchanged |
| Numbering.AddingFolder | src/file/file.ts:67-69 | visiting a folder leaves the number unchanged |
| Numbering.NoContactIffZero | src/file/file.ts:65-86 | the number is 0 iff no visited file's basename contains `Contact` |
| Numbering.NoMatchesZero | src/file/file.ts:65-72 | with no occurrence of `Contact` in any file, the number stays 0 |
| Numbering.SomeMatchPositive | src/file/file.ts:72-82 | one file containing `Contact` makes the number at least 1 |
| Numbering.CapturedTrimsToDigits | src/file/file.ts:79-80 | a captured group trims to a non-empty digit string, so the guard on line 80 always holds and `parseInt` never sees anything but digits |
| Numbering.BareMatchesKeep | src/file/file.ts:73-77 | bare matches never change a positive accumulator, so they never override a higher number |
| Numbering.AddingBareContact | src/file/file.ts:73-77 | adding a note named `Contact` raises the number to at least 1 and no further |
| Templates.GetNewFileContent | src/file/file.ts:89-97 | the custom choice returns the settings template, the frontmatter choice returns the frontmatter template, and any other choice returns the built-in table template |
| Templates.FixedTemplatesDelimited | src/file/file.ts:6-32 | the table template opens and closes with `/---contact---/` lines, the frontmatter template with `---` fences, and the two differ |
| ContactFile.CreateContactFile | src/file/file.ts:49-58 | a notice naming the path is shown iff the folder is missing; otherwise the request is for `Contact <suffix>.md` in the given folder with the chosen template's content, and its name differs from every existing note's file name |
| ContactFile.FreshFileName | src/file/file.ts:56 | the new file name is not the file name of any visited note |
| ContactFile.NoCollision | src/file/file.ts:56 | the new basename is not the basename of any visited note |
| ContactFile.NewBasenameAsksMore | src/file/file.ts:56 | the new basename's only match demands one more than the current number |
| ContactFile.CreatedNoteAdvancesNumber | src/file/file.ts:56 | after the created note is added, the next number is exactly one higher |
| ContactFile.AddingNumberedContact | src/file/file.ts:79-83 | adding `Contact <digits>` raises the number to at least the digits' value plus one and no further |
| ContactFile.AddingNumeral | src/file/file.ts:79-83 | adding `Contact <k>` raises the number to at least k+1 and no further |
| ContactFile.AddingSingleMatchFile | src/file/file.ts:66-84 | adding a file with a single match applies that match's update to the number |
| ContactFile.NumberedMatchStep | src/file/file.ts:79-82 | a captured ` <digits>` sets the accumulator to the maximum of itself and the value plus one |
| ContactFile.NewBasenameStartsWithBase | src/file/file.ts:56 | the new basename is `Contact`, one space, then the suffix |
| ContactFile.ExtensionInjective | src/file/file.ts:56 | appending `.md` preserves distinctness of basenames |
| ContactFile.RequestForSuffix | src/file/file.ts:56 | with an existing folder, the request's file name is `Contact <suffix>.md` for the computed suffix |
| ContactFile.MissingFolderScenario | src/file/file.ts:50-54 | with no folder at the path, nothing is created |
| ContactFile.EmptyFolderScenario | src/file/file.ts:49-58 | an empty folder with the default template yields `Contact .md` with the table template |
| ContactFile.SingleNumberedFolder | src/file/file.ts:60-87 | a folder holding only `Contact <k>` gives k+1 |
| ContactFile.NinthFolderNumber | src/file/file.ts:60-87 | a folder holding `Contact 9` gives 10 |
| ContactFile.NinthContactScenario | src/file/file.ts:49-58 | a folder holding `Contact 9` with the frontmatter template yields `Contact 10.md` with the frontmatter template |
| ContactFile.TwoNumberedFolder | src/file/file.ts:60-87 | a folder holding `Contact <k1>` and `Contact <k2>` gives the larger plus one |
| ContactFile.ThreeSevenNumber | src/file/file.ts:60-87 | `Contact 3` and `Contact 7` give 8 |
| ContactFile.NumberingExampleThreeSeven | src/file/file.ts:60-87 | `Contact 3` and `Contact 7`, visited in either order, give the suffix `8` |
| ContactFile.BareFolder | src/file/file.ts:73-77 | a folder holding only `Contact` gives 1 |
| ContactFile.BareThenNumbered | src/file/file.ts:73-83 | `Contact` then `Contact <k>` gives the larger of 1 and k+1 |
| ContactFile.BareThenTwoNumbered | src/file/file.ts:73-83 | `Contact`, `Contact <k1>`, `Contact <k2>` give the largest of 1, k1+1 and k2+1 |
| ContactFile.BareOneTwoNumber | src/file/file.ts:60-87 | `Contact`, `Contact 1` and `Contact 2` give 3 |
| ContactFile.NumberingExampleBareOneTwo | src/file/file.ts:60-87 | `Contact`, `Contact 1` and `Contact 2` give the suffix `3` |

## Left out

- The Obsidian host API. Looking a path up (`getAbstractFileByPath`), the traversal order of
  `Vault.recurseChildren`, the `instanceof TFile` test, `vault.create`, the `Notice` display, and
  opening the new note (`openFile`, `getLeaf`) are host calls.
  - The folder's contents are given as the sequence of entries the traversal visits. Each entry
    is a file with its basename or a folder.
  - The notice is modelled as the message it would show.
  - The creation is modelled as a request value.
  - The order result (`OrderIndependent`) shows that the unknown traversal order does not
    matter.
- The asynchronous chain from create to open, and the asynchronous traversal callback in
  `findContactFiles`. The callbacks are modelled as running to completion in visiting order.
- `normalizePath` and `path.join`. The request carries the folder path and the file name
  separately.
  - `findNextFileNumber` looks the folder up again under `normalizePath(folderPath)`. The model
    takes that lookup to find the same folder.
- `src/settings/settings` and `src/main` are not part of this model.
  - The template type is modelled with the three choices the switch distinguishes.
  - The stored custom template is passed in as a parameter.
- Numbers are unbounded naturals. JavaScript's double precision beyond 2^53 and `toString`'s
  exponent notation from 1e21 on are not modelled.
- ContactFile.FreshFileName, ContactFile.NoCollision, ContactFile.CreatedNoteAdvancesNumber and
  the last ensures of ContactFile.CreateContactFile hold only for numbers below 2^53 in the
  program itself. With a note `Contact 9007199254740992`, `parseInt` gives 2^53. Then
  `2^53 + 1` rounds back to 2^53 (lines 81-82), and line 56 requests the existing name
  `Contact 9007199254740992.md` again. The model's unbounded numbers do not show this.
- `parseInt`'s sign, `0x` prefix and `NaN` results. `CapturedTrimsToDigits` shows that the
  source only ever parses a non-empty ASCII digit string, so these cannot occur.
- Strings are sequences of Dafny characters. UTF-16 surrogate pairs are not modelled, which
  matters neither to `Contact` nor to digits. Non-ASCII whitespace is in the modelled `\s`
  class.
- The guard on line 51 tests only that something exists at the path, not that it is a folder.
  The model follows the code: a present entry is always given as the folder's contents.
- With no `Contact` note in the folder, the code names the new note `Contact .md`, with a space
  before the extension. The model keeps that name (`EmptyFolderScenario`); it is not `Contact.md`.
