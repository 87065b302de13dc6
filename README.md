# ExportCleans, modelled in Dafny

`CC_ExportCleans.js` is a Storyboard Pro script. It exports a board's
"cleans" into a dated folder next to the project file. This project models
the logic of that script that is self-contained once the host application
is replaced by plain values:

- checking the project's base name and taking it apart into sequence and
  version (`validateFileName`, `parseFileName`);
- the date stamp of the export folder (`getDate`, `padNumber`), written with
  JavaScript's `+` on strings and numbers (module `JsValues`);
- the first free folder name `<date>_CLEANS`, `<date>_CLEANS_02`, ... and the
  four paths `createDirectories` returns;
- renumbering the scenes and their panels in place (`renameScenesAndPanels`);
- the project's panels in project order (`allPanelsInProject`);
- sorting the exported files into `Panels` and `Audio` (`organizeFiles`);
- the motion-layer report and whether it is written (`detectMotionLayerScenes`).

The storyboard is a sequence of scenes. Each scene has an id, a name and its
panels in order. Each panel has an id, a name and, per layer index, the
point count of that layer's skew function. A directory is the set (for
`createDirectories`) or the ordered listing (for `organizeFiles`) of the
names in it.

Modules:

- `Wrappers`: `Option` and `Result`.
- `Strings`: decimal form, `split`/`join`, `replace` with a string pattern,
  and suffix test.
- `JsValues`, `FileNames`, `DateStamp`, `Directories`, `Storyboard`,
  `FileOrganizer` (the class `ExportTree`) and `MotionReport`.

## Model

| member | source | states |
|---|---|---|
| FileNames.ValidateFileName | CC_ExportCleans.js:54-60 | the name is rejected exactly when it is `Untitled` and accepted for every other name |
| FileNames.ParseFileName | CC_ExportCleans.js:62-70 | the parse fails (the `.replace` on a missing second token throws) exactly when the name holds no `_`; otherwise neither the sequence nor the version holds a `_` |
| FileNames.ParseJoinedName | CC_ExportCleans.js:62-70 | a name made of two or more `_`-free tokens parses to the second token with its first `SQ` removed, and to the last token, whatever tokens lie between |
| FileNames.StripsLeadingSQOnce | CC_ExportCleans.js:64 | only the first `SQ` is removed: `SQ` followed by any text gives back that text |
| FileNames.ParseExample | CC_ExportCleans.js:62-70 | `Show_SQ010_Extra_v03` gives sequence `010` and version `v03` |
| Strings.ReplaceFirstOccurrence | CC_ExportCleans.js:64 | `replace` with a string pattern leaves a string without the pattern unchanged, and otherwise replaces exactly the first occurrence |
| Strings.ReplaceFirst | CC_ExportCleans.js:64 | `replace` with a string pattern makes at most one replacement: the length is unchanged or changed by exactly one pattern-for-replacement swap |
| Strings.JoinSplit | CC_ExportCleans.js:63 | joining the pieces of `split` with the separator gives back the string: `split` keeps empty pieces |
| Strings.Split | CC_ExportCleans.js:63 | `split` always yields at least one piece, and no piece holds the separator |
| Strings.SplitJoin | CC_ExportCleans.js:63 | splitting a join of separator-free pieces gives back the pieces |
| Strings.SplitSinglePiece | CC_ExportCleans.js:63-64 | `split` yields one piece exactly when the separator is absent, so a second token exists exactly when there is a `_` |
| Strings.DecimalRoundTrip | CC_ExportCleans.js:272 | the decimal form of a natural number reads back as that number |
| JsValues.Rem | CC_ExportCleans.js:265 | `%` by a positive divisor: the dividend is the quotient truncated toward zero times the divisor plus the remainder, which is below the divisor and has the sign of the dividend |
| JsValues.Plus | CC_ExportCleans.js:268 | `+` gives a string exactly when either operand is one, and then the concatenation of both operands' text; otherwise the numeric sum |
| DateStamp.PadNumber | CC_ExportCleans.js:271-276 | the result is a string exactly for the one-digit naturals, and the number itself otherwise |
| DateStamp.GetDate | CC_ExportCleans.js:261-269 | the stamp is a number exactly when neither month nor day is a one-digit natural, and then it is month + day + the year's remainder by 100 |
| DateStamp.PadNumberPadsSingleDigits | CC_ExportCleans.js:271-276 | `padNumber` returns a string exactly for the one-digit naturals, and otherwise the number unchanged; as text the result of a natural is its two-or-more-digit form |
| DateStamp.PaddedRoundTrip | CC_ExportCleans.js:271-276 | the padded text has at least two digits and reads back as the number |
| DateStamp.GetDateCases | CC_ExportCleans.js:261-269 | for a calendar date the stamp is the text of padded month, padded day and unpadded year of the century when month or day is below 10, and the number month + day + year of the century when both are 10 or more |
| DateStamp.GetDateSpringExample | CC_ExportCleans.js:261-269 | 8 May 2024 gives the text `050824` |
| DateStamp.GetDateAddsLateInYear | CC_ExportCleans.js:261-269 | 10 October 2024 gives the number 44 |
| DateStamp.GetDateShortYear | CC_ExportCleans.js:261-269 | 5 January 2009 gives `01059`: the year is not padded |
| DateStamp.StampMMDDYYRoundTrip | CC_ExportCleans.js:261-269 | the intended stamp of a calendar date is six digits, and month, day and year of the century read back from its three pairs |
| DateStamp.StampAgreesWhenText | CC_ExportCleans.js:261-269 | when month or day is a single digit and the year of the century has two digits, the stamp the script builds is the intended one |
| Directories.CandidateSpelling | CC_ExportCleans.js:160-165 | the two `+` expressions of the script give the bare name and, for version `v >= 2`, the name with `_` and `v` padded to two digits: `_02` ... `_09`, `_10`, `_11`, ... |
| Directories.CandidateInjective | CC_ExportCleans.js:164-167 | no candidate name is tried twice |
| Directories.FirstFreeUnique | CC_ExportCleans.js:164-167 | there is at most one first free candidate for a given set of names |
| Directories.ChooseFolderName | CC_ExportCleans.js:158-167 | the loop ends for every finite set of names; the chosen name is a candidate not in the set, and every earlier candidate is in the set |
| Directories.ThirdFolderExample | CC_ExportCleans.js:164-167 | with `050824_CLEANS` and `050824_CLEANS_02` taken, the folder is `050824_CLEANS_03` |
| Directories.LateDateFolder | CC_ExportCleans.js:159-160 | on 10 October 2024 the first folder tried is `44_CLEANS`, and 11 October 2023 gives the same stamp and so the same folder names |
| Directories.FilePath | CC_ExportCleans.js:170-181 | a path is the directory, a `/` and the name, and both parts can be read back from it |
| Directories.CreateDirectories | CC_ExportCleans.js:158-183 | the first free name is added to the directory, the three subfolders are made in it, and the four returned paths lie under it |
| Storyboard.RenameScenesAndPanels | CC_ExportCleans.js:112-129 | the array afterwards is the renumbering of the array before: scene `i` named `i + 1`, panel `j` of each scene named `j + 1`, everything else unchanged |
| Storyboard.RenumberedNamesAreDistinct | CC_ExportCleans.js:118-127 | after renumbering, scene names read back as 1, 2, ... and are pairwise distinct, and so are the panel names within each scene |
| Storyboard.RenumberedKeepsStructure | CC_ExportCleans.js:118-127 | renumbering keeps the number, order, ids and layers of scenes and panels, and renumbering again changes nothing |
| Storyboard.NumberOfPanelsInProject | CC_ExportCleans.js:251 | the project has no panels exactly when every scene is empty |
| Storyboard.PanelInProject | CC_ExportCleans.js:254 | the `k`-th panel of the project is a panel of some scene, paired with that scene's name |
| Storyboard.PanelInProjectIsFlattening | CC_ExportCleans.js:251-255 | the host's `k`-th panel of the project is the `k`-th panel of the scenes' panels taken one scene after the other, and the project's panel count is their number |
| Storyboard.AllPanelsInProject | CC_ExportCleans.js:249-259 | the loop returns all the project's panels in project order |
| MotionReport.LayerHitsMembers | CC_ExportCleans.js:226-237 | a panel adds only its own scene's name, and adds nothing exactly when none of its layers has more than one skew point |
| MotionReport.MotionLayerReported | CC_ExportCleans.js:225-239 | every layer whose skew function has more than one point puts its scene's name into the report |
| MotionReport.ReportedNameHasMotionLayer | CC_ExportCleans.js:225-239 | every name in the report belongs to the scene of some layer with more than one skew point |
| MotionReport.MotionScenesMembers | CC_ExportCleans.js:225-239 | a scene name is in the report exactly when a panel of that scene has a layer with more than one skew point |
| MotionReport.MotionScenesEmpty | CC_ExportCleans.js:225-241 | the report holds no scene name exactly when no layer of any panel has more than one skew point |
| MotionReport.ReportTextRoundTrip | CC_ExportCleans.js:245 | the written text is the report joined by commas, and splits back into the report when no name holds a comma |
| MotionReport.ReportText | CC_ExportCleans.js:245 | the written text starts with the header line, and is just the header when the report has no scene name |
| MotionReport.DetectMotionLayerScenes | CC_ExportCleans.js:219-247 | the report is the header followed by one scene name per (panel, layer) with more than one skew point, in panel-then-layer order; the comma-joined report is written exactly when it holds more than the header |
| MotionReport.ReportWrittenIffMotion | CC_ExportCleans.js:241-246 | the report file is written exactly when some layer of some panel has more than one skew point |
| MotionReport.MotionScenesExample | CC_ExportCleans.js:225-239 | a scene with two moving layers is reported twice and a scene with none not at all |
| FileOrganizer.EntryListMembers | CC_ExportCleans.js:190 | an entry list holds exactly the listed names with that suffix |
| FileOrganizer.EntryList | CC_ExportCleans.js:190 | an entry list is no longer than the listing it filters |
| FileOrganizer.AudioFilesByFormat | CC_ExportCleans.js:199-205 | the audio list is the `.wav`, `.aif`, `.aiff` and `.mp3` entry lists one after the other |
| FileOrganizer.GatherMembers | CC_ExportCleans.js:199-205 | the audio list holds exactly the listed names ending in an audio format |
| FileOrganizer.CollectAudio | CC_ExportCleans.js:199-205 | the nested loop builds the audio list, grouped by format in the script's order |
| FileOrganizer.Classify | CC_ExportCleans.js:186-190 | a name ends in at most one of `.png`, `.wav`, `.aif`, `.aiff`, `.mp3`, so no file is sorted twice |
| FileOrganizer.AudioFilesSkipPanels | CC_ExportCleans.js:190-205 | moving the images first does not change which audio files are found |
| FileOrganizer.SortingConservesFiles | CC_ExportCleans.js:185-217 | no file is lost or duplicated: the names that stay, the images and the audio files together are the listing |
| FileOrganizer.KeptMembers | CC_ExportCleans.js:185-217 | the names that stay are exactly the listed names that are neither images nor audio |
| FileOrganizer.Destinations | CC_ExportCleans.js:185-217 | each listed image ends in `Panels` only, each audio file in `Audio` only, and each other file stays |
| FileOrganizer.SortingExample | CC_ExportCleans.js:185-217 | `a.png`, `b.wav`, `c.txt`: the image goes to `Panels`, the sound to `Audio`, the text stays |
| FileOrganizer.ExportTree.MoveToPanels | CC_ExportCleans.js:191-197 | a rename takes the name out of the export folder and appends it to `Panels`, leaving `Audio` alone |
| FileOrganizer.ExportTree.MoveToAudio | CC_ExportCleans.js:210-216 | a rename takes the name out of the export folder and appends it to `Audio`, leaving `Panels` alone |
| FileOrganizer.ExportTree.OrganizeFiles | CC_ExportCleans.js:185-217 | afterwards `Panels` gained the images in listing order, `Audio` gained the audio list, and the export folder holds what is neither, in its order |

## Left out

- UI and logging (`FileDialog`, `MessageBox`, `MessageLog`) are left out. They are host I/O: `validateFileName` returns its verdict and the message box is not modelled.
- `checkFrameRate` is not part of this model. It rounds a floating-point frame rate.
- `checkSequence` is not part of this model. Merging and creating sequences are host actions whose effect cannot be seen.
- `exportMov` and `conformationExportAll` are not part of this model. They only set host preferences and call the host's exporters. The files they produce are the listing `organizeFiles` starts from.
- The clock (`new Date()`) is left out. Day, month and full year are parameters.
- Filesystem effects are left out. The export directory is a set of names, and the export folder, `Panels` and `Audio` are listings.
- The host's `*.ext` glob is modelled as an exact, case-sensitive suffix match. Its real case handling is host-defined.
- A failing `dir.mkdir` or `dir.rename` is not modelled. Every call succeeds.
- `writeLine`'s line terminator and the file's encoding are left out. The written text is the comma join that JavaScript makes of an array.
- Storyboard.RenameScenesAndPanels: the host's `renameScene(id, n)` and `renamePanel(id, n)` are modelled as storing the decimal text of `n`. The host's own conversion of the number is not part of this model.
- Storyboard.RenameScenesAndPanels: the preference and unlock action before the loop are left out.
- The host's `sceneIdOfPanel` and `nameOfScene` are modelled by carrying each panel's scene name along with the panel.
- FileOrganizer.ExportTree.OrganizeFiles: a listing with a repeated name is not excluded. The model would move that name once per occurrence, where the host would find nothing left to move the second time. A real directory listing has no repeated name.
- FileOrganizer.ExportTree.MoveToPanels: a rename removes every entry of that name from the export folder. A listing has no repeated name, so this is the same as removing one.

## Findings

| source | as written | input that shows it | evidently intended | confidence | as-written member | corrected member |
|---|---|---|---|---|---|---|
| CC_ExportCleans.js:261-276 | `padNumber` returns the number itself when it does not pad, so `month + day + year` adds numbers when month and day both have two digits; the year of the century is never padded | 10 October 2024 gives the number 44 (folder `44_CLEANS`); 5 January 2009 gives `01059` | the six-digit text `MMDDYY`, e.g. `101024` | high, not executed | DateStamp.GetDateAddsLateInYear | DateStamp.StampMMDDYYRoundTrip |
