# Résumé builder and terminal portfolio: a Dafny model

The application keeps a résumé (personal details, experience, projects,
education, skills and certifications) as one value. It has three views.
The portfolio view reveals a "terminal" panel one character at a time and
unlocks its blocks in stages. The editor replaces the résumé wholesale on
every keystroke. The print preview renders it as text with light markup.

This project models the logic of those three views:

- `resume.dfy` (`Resume`): the résumé datatypes of `types.ts`.
- `strings.dfy` (`Strings`): JavaScript `split` on one character and `join`, with both round trips.
- `typewriter.dfy` (`Typewriter`): the typing effect. A `Snapshot` state machine driven by timer events (start timeout, interval tick, teardown), and a `Typewriter` class whose methods update its fields as the timers fire. Each method is proved equal to one `Step` of the machine.
- `terminal.dfy` (`Terminal`): the `terminalStep` stage, which `onComplete` callbacks merge into with `max`, and the blocks it gates. Also the five typewriters of the panel run together (`Console`), the `idle → connecting → connected` handshake, and a `Portfolio` class holding the view's state.
- `portfolio_text.dfy` (`PortfolioText`): `cleanText` (drop every `**`) and the `./init_<name>.sh` label.
- `editor.dfy` (`Editor`): every edit the editor makes to the résumé, as a function on values. This covers field updates, deleting, editing and appending list items, the career-gap bridge, the skills and certifications textareas, and the accordion. An `Editor` class holds `data`, `activeSection` and `loading`, and its handlers are proved to apply those functions.
- `preview.dfy` (`Preview`): the print view's text helpers.
  - bullet stripping and the `**…**` tokenizer, specified declaratively (`Tiles`) and proved to be the unique tiling the lazy regular expression produces;
  - bold rendering;
  - the blank-line filter;
  - `cleanUrl`;
  - the skill `category: items` split;
  - end-date labels;
  - the contact lines and their separators.

Timers are events, with no durations. The text service (`optimizeText`,
`bridgeGapWithProjects`) is a function parameter. The identifiers that come
from `Date.now()` are parameters.

## Model

| member | source | states |
|---|---|---|
| Strings.Split | components/Editor.tsx:280 | `split(c)`: at least one piece; no piece contains `c`; one piece exactly when `c` is absent; the first piece is the prefix up to the first `c` |
| Strings.Join | components/Editor.tsx:279 | `join(sep)`: the first element starts the joined text |
| Strings.SplitCons | components/Editor.tsx:280 | splitting `a + c + b`, where `a` has no `c`, gives `a` followed by the pieces of `b` |
| Strings.JoinSplit | components/Editor.tsx:279-280 | joining the pieces of `split(c)` with `c` gives the text back, for every text |
| Strings.SplitJoin | components/Editor.tsx:279-280 | a non-empty list whose entries contain no `c` comes back unchanged from join-then-split |
| Strings.SplitJoinEmptyList | components/Editor.tsx:279-280 | the empty list does not survive: it comes back as one empty entry |
| Typewriter.Mounted | components/Portfolio.tsx:27-29 | a freshly mounted typewriter is in the invariant, shows nothing and has not completed |
| Typewriter.Inv | components/Portfolio.tsx:27-62 | the invariant of a mounted typewriter implies the shown text is a prefix of `text`, `onComplete` has fired at most once, and once fired the whole text is shown |
| Typewriter.Step | components/Portfolio.tsx:31-62 | one event keeps the text and `currentIndex` within it; `onComplete` fires at most once per event, only by completing with the index at the end of the text and the shown text unchanged; teardown clears both timers; with no live timer the event is ignored |
| Typewriter.StepInv | components/Portfolio.tsx:31-62 | every timer event keeps the invariant: shown text is `text[..currentIndex]`; `onComplete` has fired once iff complete, and then with all of `text` shown and no interval left |
| Typewriter.Run | components/Portfolio.tsx:31-62 | any sequence of events keeps the invariant and the text, and never un-fires `onComplete` |
| Typewriter.RunAppend | components/Portfolio.tsx:31-62 | running two event sequences in turn is running their concatenation |
| Typewriter.RevealInvariants | components/Portfolio.tsx:41-58 | from mounting, whatever the events: the shown text is a prefix of `text`, `onComplete` fires at most once, and only with the whole text shown |
| Typewriter.TickRevealsOneMore | components/Portfolio.tsx:56-58 | a tick before the end appends exactly the next character and does not complete |
| Typewriter.TicksReveal | components/Portfolio.tsx:49-58 | `n` ticks of a running interval reveal exactly `n` more characters |
| Typewriter.CompletesOnTickAfterFullText | components/Portfolio.tsx:49-55 | non-empty text: after the start and `len` ticks the whole text is shown but not complete; tick `len + 1` completes, once, and clears the interval |
| Typewriter.EmptyTextCompletesAtStart | components/Portfolio.tsx:43-47 | empty text completes on the start event itself, with no interval armed |
| Typewriter.QuiescentIgnoresEvents | components/Portfolio.tsx:35-61 | with both timers cleared, no event changes anything |
| Typewriter.NoCompletionAfterTeardown | components/Portfolio.tsx:61 | after teardown nothing more is shown and `onComplete` never fires again |
| Typewriter.NothingBeforeStart | components/Portfolio.tsx:31-39 | until the start timeout fires, nothing is shown and nothing completes |
| Typewriter.Typewriter.constructor | components/Portfolio.tsx:27-29 | the object starts in the mounted state |
| Typewriter.Typewriter.OnStartTimer | components/Portfolio.tsx:32-47 | the start timeout performs one `Step`; `completed` iff `onComplete` was invoked |
| Typewriter.Typewriter.OnTick | components/Portfolio.tsx:49-59 | an interval tick performs one `Step`; `completed` iff `onComplete` was invoked |
| Typewriter.Typewriter.TearDown | components/Portfolio.tsx:61 | the cleanups perform one teardown `Step` |
| Terminal.Merge | components/Portfolio.tsx:215 | `Math.max(prev, target)`: at least both arguments, and equal to one of them |
| Terminal.MergeAll | components/Portfolio.tsx:215-258 | merging a sequence of targets gives the maximum of the start stage and the targets |
| Terminal.MergeIdempotent | components/Portfolio.tsx:215 | merging the same target twice is merging it once |
| Terminal.MergeAllOrderIndependent | components/Portfolio.tsx:215-258 | the final stage depends only on the multiset of targets received, not their order |
| Terminal.MergeAllAppend | components/Portfolio.tsx:215-258 | merging two batches in turn is merging their concatenation |
| Terminal.StageNeverDecreases | components/Portfolio.tsx:215-258 | the stage after a prefix of the callbacks is at most the stage after a longer prefix |
| Terminal.StageAtMostThree | components/Portfolio.tsx:215-258 | callbacks targeting only 1, 2 and 3 never take the stage past 3 |
| Terminal.ShownStaysShown | components/Portfolio.tsx:221-264 | a block shown at `terminalStep >= k` stays shown after any further callbacks |
| Terminal.Shown | components/Portfolio.tsx:221-264 | the first block (stage 0) is always rendered; a block needing a higher stage than reached is not |
| Terminal.Gate | components/Portfolio.tsx:212-271 | each typewriter is rendered from stage at most 3; only the first command is rendered from the start |
| Terminal.Target | components/Portfolio.tsx:212-271 | a typewriter with `onComplete` unlocks the stage just above its own gate (1, 2 or 3); the role line and the summary have none |
| Terminal.WriterText | components/Portfolio.tsx:215-269 | the four fixed lines are non-empty; the summary is typed with no `**` left in it |
| Terminal.Initial | components/Portfolio.tsx:212-271 | the panel starts at stage 0 with each of its five typewriters freshly mounted on its text, the last one on the cleaned summary |
| Terminal.ConsoleStepInv | components/Portfolio.tsx:212-271 | each timer event keeps the panel invariant and never lowers the stage. The invariant: unrendered typewriters are untouched; stage ≥ k iff the typewriter targeting k has completed; stage ≤ 3 |
| Terminal.ConsoleStep | components/Portfolio.tsx:212-271 | an event never lowers the stage and touches no other typewriter; an event of an unrendered typewriter changes nothing (where a changed stage comes from is stated by `ConsoleStepRaisesToTarget`) |
| Terminal.ConsoleStepRaisesToTarget | components/Portfolio.tsx:215-258 | the stage changes only to the target of the typewriter whose `onComplete` has just fired |
| Terminal.ConsoleRun | components/Portfolio.tsx:212-271 | any sequence of panel events keeps the invariant and never lowers the stage |
| Terminal.StageIsMaxOfCompleted | components/Portfolio.tsx:215-258 | in every reachable panel the stage is the maximum target among the completed typewriters |
| Terminal.ReachablePanel | components/Portfolio.tsx:212-271 | from the initial panel, whatever the timing: stage = max of completed targets, ≤ 3, monotone over prefixes; no typewriter in a hidden block has started or shows anything |
| Terminal.ConsoleRunAppend | components/Portfolio.tsx:212-271 | running two event sequences in turn is running their concatenation |
| Terminal.FiresOne | components/Portfolio.tsx:215-258 | one rendered typewriter's events change only that typewriter; the stage changes only by merging its target when it completes |
| Terminal.FiresOneWriters | components/Portfolio.tsx:212-271 | one rendered typewriter's events leave every other typewriter as it was |
| Terminal.FiresOneStage | components/Portfolio.tsx:215-258 | one rendered typewriter's events raise the stage only by merging its target, once, when it completes |
| Terminal.FullRevealCompletes | components/Portfolio.tsx:49-55 | the start event and `len + 1` ticks complete a non-empty typewriter with its whole text shown |
| Terminal.SequenceReachesStageThree | components/Portfolio.tsx:212-259 | typing the first command, the specialization line and the second command in full reaches stage 3, with each showing its whole text |
| Terminal.HandshakeForwardOnly | components/Portfolio.tsx:93-101 | one event moves the handshake at most one step forward (idle → connecting → connected) and never back |
| Terminal.HandshakeStep | components/Portfolio.tsx:92-101 | an event never lowers the handshake status; `connected` is reached only by the timeout firing; `connecting` never follows `connected` |
| Terminal.HandshakeRun | components/Portfolio.tsx:93-101 | any sequence of clicks and timeouts never lowers the handshake status |
| Terminal.ConnectedNeedsClickThenTimer | components/Portfolio.tsx:515-523 | `connected` is reached only through a timeout; from idle, only through a click followed later by a timeout |
| Terminal.Portfolio.constructor | components/Portfolio.tsx:76-79 | the view starts at stage 0 with the handshake idle and no timeout pending |
| Terminal.Portfolio.OnStageReached | components/Portfolio.tsx:215 | a callback sets `terminalStep` to `max(old, target)`; the handshake is untouched; every block shown stays shown |
| Terminal.Portfolio.OnHandshakeClick | components/Portfolio.tsx:93-94 | a click performs one handshake step (idle → connecting, arming the timeout) and keeps the stage |
| Terminal.Portfolio.OnHandshakeTimer | components/Portfolio.tsx:95-100 | the timeout performs one handshake step (connecting → connected) and keeps the stage |
| PortfolioText.CleanText | components/Portfolio.tsx:82 | removes `*` only, two at a time; every other character keeps its order; the result has no two adjacent `*` |
| PortfolioText.CleanTextKeepsClean | components/Portfolio.tsx:82 | text without `**` is unchanged |
| PortfolioText.CleanTextSkipsPlain | components/Portfolio.tsx:82 | the first `**` is the one removed: text before it with no `**` and not ending in `*` is kept exactly, lone `*` included |
| PortfolioText.LoneStarStays | components/Portfolio.tsx:82 | `*a**b` cleans to `*ab`: the lone star stays in place |
| PortfolioText.CleanTextIdempotent | components/Portfolio.tsx:82 | cleaning twice is cleaning once |
| PortfolioText.FirstWord | components/Portfolio.tsx:406 | `split(' ')[0]`: the prefix of the name up to its first space |
| PortfolioText.Lowercase | components/Portfolio.tsx:406 | `toLowerCase`, character by character (ASCII) |
| PortfolioText.KeepTokenChars | components/Portfolio.tsx:406 | the result holds only `[a-z0-9]` and is no longer than its input |
| PortfolioText.InitToken | components/Portfolio.tsx:406 | the token holds only `[a-z0-9]` and is no longer than the first word |
| PortfolioText.InitScript | components/Portfolio.tsx:406 | the label is `./init_`, the token, then `.sh` |
| PortfolioText.KeepLowerIsTokenOf | components/Portfolio.tsx:406 | lower-casing then filtering equals a one-pass reference that keeps each ASCII letter or digit, lower-cased |
| PortfolioText.InitTokenIsAlnumOfFirstWord | components/Portfolio.tsx:406 | the token is exactly the ASCII letters and digits of the first word, in order and lower-cased |
| PortfolioText.TokenCharsKept | components/Portfolio.tsx:406 | text made of `[a-z0-9]` passes lower-casing and filtering unchanged |
| PortfolioText.InitTokenIdempotent | components/Portfolio.tsx:406 | deriving the token of a token gives it back |
| PortfolioText.LeadingSpaceEmptyToken | components/Portfolio.tsx:406 | a name starting with a space yields `./init_.sh` |
| Editor.PersonalValuesDetermine | types.ts:3-12 | the eight named fields determine the personal details completely |
| Editor.UpdateField | components/Editor.tsx:16-24 | the named field takes the new value; every other personal field and every other section is unchanged |
| Editor.UpdateFieldSameValue | components/Editor.tsx:16-24 | writing a field's current value back changes nothing |
| Editor.RemoveAt | components/Editor.tsx:160-161 | `splice(i, 1)`: one shorter, items before `i` kept, items after shifted down, exactly `s[i]` removed (multiset); an index past the end changes nothing |
| Editor.RemoveAppended | components/Editor.tsx:160-161 | removing the last item of `s + [x]` gives `s` |
| Editor.DeleteItem | components/Editor.tsx:159-162 | deletes from the chosen list only (likewise lines 226-229 and 292-295); all other sections unchanged |
| Editor.AddItem | components/Editor.tsx:211 | appends one blank item to the chosen list (likewise lines 263 and 313): all strings empty, `current` false, given id; old items kept; everything else unchanged |
| Editor.BlankExperience | components/Editor.tsx:211 | a new experience carries the given id, every text field empty, and is not current |
| Editor.BlankProject | components/Editor.tsx:263 | a new project carries the given id and every text field empty |
| Editor.BlankEducation | components/Editor.tsx:313 | a new education entry carries the given id and every text field empty |
| Editor.DeleteUndoesAdd | components/Editor.tsx:211 | deleting the item just appended restores the résumé |
| Editor.ApplyExperienceEdit | components/Editor.tsx:169-195 | an input sets exactly its own field of the item, the checkbox exactly `current`; id and location kept |
| Editor.ApplyProjectEdit | components/Editor.tsx:235-257 | an input sets exactly its own field of the project; id kept |
| Editor.ApplyEducationEdit | components/Editor.tsx:301-309 | an input sets exactly its own field of the education item; id kept |
| Editor.UpdateAt | components/Editor.tsx:169-170 | the copied list with item `i` replaced: same length, other items unchanged |
| Editor.EditExperience | components/Editor.tsx:169-195 | only item `i` of the experience list changes, by that edit; every other section is unchanged |
| Editor.EditProject | components/Editor.tsx:235-257 | only item `i` of the project list changes, in that field; every other section is unchanged |
| Editor.EditEducation | components/Editor.tsx:301-309 | only item `i` of the education list changes, in that field; every other section is unchanged |
| Editor.OptimizeSummary | components/Editor.tsx:123 | the summary becomes the service's answer for the summary, and nothing else changes |
| Editor.OptimizeBullet | components/Editor.tsx:199-201 | the description of item `i` becomes the service's answer for that bullet text, and nothing else changes |
| Editor.ProjectSummary | components/Editor.tsx:36 | a project line is never shorter than its name, stack and description plus the five fixed characters |
| Editor.ProjectSummaries | components/Editor.tsx:36-38 | the joined project lines are empty exactly when there are no projects |
| Editor.BridgeEntry | components/Editor.tsx:46-55 | the bridge entry carries the given id and bullets, is current from `2024-06` to `Present`, at `Independent Engineering Initiative` as `Freelance Full Stack Engineer`, `Remote` |
| Editor.GapBridge | components/Editor.tsx:33-62 | aborts iff there are no projects; otherwise exactly one entry goes in front (given id, the fixed company, role, location and start `2024-06`, end `Present`, `current`, the service's bullets for the project lines), followed by the old list; all else unchanged |
| Editor.TextLines | components/Editor.tsx:280 | typing stores at least one entry, none containing a newline |
| Editor.LinesText | components/Editor.tsx:279 | the textarea shows nothing for an empty list, the single entry for one, and otherwise the first entry followed by a line break |
| Editor.TextShownBack | components/Editor.tsx:279-280 | whatever is typed is shown back unchanged |
| Editor.ListSurvivesTextarea | components/Editor.tsx:279-280 | a non-empty list of single-line entries survives a trip through the textarea |
| Editor.Toggle | components/Editor.tsx:66 | clicking the open section closes it, any other click opens that section; at most the clicked section is open |
| Editor.Editor.constructor | components/Editor.tsx:13-14 | the editor starts with the personal section open and not loading |
| Editor.Editor.ClickHeader | components/Editor.tsx:66 | a header click toggles `activeSection`; the résumé is untouched |
| Editor.Editor.TypePersonal | components/Editor.tsx:16-24 | typing in a personal input applies `UpdateField` |
| Editor.Editor.ClickDelete | components/Editor.tsx:159-162 | the trash button applies `DeleteItem` |
| Editor.Editor.ClickAdd | components/Editor.tsx:211 | the add button applies `AddItem` |
| Editor.Editor.TypeExperience | components/Editor.tsx:169-195 | an experience input applies `EditExperience`; the end-date input is disabled while `current` |
| Editor.Editor.TypeProject | components/Editor.tsx:235-257 | a project input applies `EditProject` |
| Editor.Editor.TypeEducation | components/Editor.tsx:301-309 | an education input applies `EditEducation` |
| Editor.Editor.TypeSkills | components/Editor.tsx:280 | the skills become the typed text's lines; nothing else changes |
| Editor.Editor.TypeCertifications | components/Editor.tsx:329 | the certifications become the typed text's lines; nothing else changes |
| Editor.Editor.ClickOptimizeSummary | components/Editor.tsx:26-31 | one service request; the résumé becomes `OptimizeSummary`; `loading` is reset |
| Editor.Editor.ClickImprove | components/Editor.tsx:199-202 | one service request; the résumé becomes `OptimizeBullet`; `loading` is reset |
| Editor.Editor.ClickGapBridge | components/Editor.tsx:33-62 | alerts iff no projects, then with no request and no change; otherwise one request and the résumé becomes the `GapBridge` result; `loading` is reset |
| Preview.TrimStart | components/Preview.tsx:23 | drops exactly the leading white space (the ECMAScript set): a suffix, everything dropped is white space, the rest does not start with it |
| Preview.TrimEnd | components/Preview.tsx:160 | drops exactly the trailing white space: a prefix, everything dropped is white space |
| Preview.Trim | components/Preview.tsx:160 | `trim()` is empty iff the line is all white space; otherwise it neither starts nor ends with white space |
| Preview.IsLineTerminator | components/Preview.tsx:26 | LF and CR end a line for `.`; no line terminator is `*` or a space |
| Preview.IsJsSpace | components/Preview.tsx:160 | every line terminator, the space and the tab are white space for `trim`; `*` and lower-case letters are not |
| Preview.IsBulletMarker | components/Preview.tsx:23 | `-` is a bullet marker; no marker is white space or `*` |
| Preview.StripBullet | components/Preview.tsx:23 | a line not starting with `•`, `·`, `–`, `—` or `-` is unchanged; otherwise that one marker and exactly the white space after it go |
| Preview.CloseFrom | components/Preview.tsx:26 | the lazy search for the closing `**` ends within the text, at least two characters on |
| Preview.CloseFromFirst | components/Preview.tsx:26 | the closing `**` found is the first one, with no line terminator before it |
| Preview.CloseFromNone | components/Preview.tsx:26 | when the search fails, no `**` follows on the same line |
| Preview.MatchAt | components/Preview.tsx:26 | a match of `\*\*.*?\*\*` at a position is at least four characters long |
| Preview.MatchIsBoldSpan | components/Preview.tsx:26 | every match starts and ends with `**`, with no `**` and no line terminator inside |
| Preview.MatchAtNone | components/Preview.tsx:26 | no match at a `**` means no later `**` on the same line closes it |
| Preview.MatchAtShortest | components/Preview.tsx:26 | a match starts with `**` and is the shortest: no `**` between its delimiters |
| Preview.SplitFrom | components/Preview.tsx:26 | the scanning split yields an odd number of parts |
| Preview.SplitFromTiles | components/Preview.tsx:26 | the scanning split is a tiling: plain runs with no match alternate with leftmost lazy matches |
| Preview.SplitBold | components/Preview.tsx:26 | `split(/(\*\*.*?\*\*)/g)` tiles the line that way |
| Preview.TilesRest | components/Preview.tsx:26 | after the first plain part comes the match at that position, then a tiling of the rest |
| Preview.ScanPlain | components/Preview.tsx:26 | skipping ahead over a run with no match does not change the split |
| Preview.TilesIsSplit | components/Preview.tsx:26 | any tiling is the one the split produces |
| Preview.TilesUnique | components/Preview.tsx:26 | a line has exactly one tiling |
| Preview.TilesJoin | components/Preview.tsx:26 | the parts of a tiling concatenate to the text |
| Preview.TilesOdd | components/Preview.tsx:26 | a tiling has an odd number of parts |
| Preview.TilesAlternate | components/Preview.tsx:26 | every second part of a tiling is a bold span |
| Preview.AlternatesBoldOdd | components/Preview.tsx:26 | in an alternating list every odd-indexed part is a bold span |
| Preview.SplitBoldProperties | components/Preview.tsx:26 | the parts concatenate back to the line exactly (the delimiters are kept); their number is odd; odd parts are bold spans; a line with no `**` is one part |
| Preview.SplitBoldExample | components/Preview.tsx:26 | `a **b** c **d**` splits into `a `, `**b**`, ` c `, `**d**` and a trailing empty part |
| Preview.RenderPart | components/Preview.tsx:31-34 | bold iff the part starts and ends with `**`, then shown without those four characters; any other part is shown verbatim |
| Preview.RenderParts | components/Preview.tsx:30-34 | one piece per part, each the rendering of its part |
| Preview.RenderLine | components/Preview.tsx:26-35 | one piece per part of the split of the line without its bullet, each the rendering of its part; an odd number of pieces, every second one bold with no `**` left in it |
| Preview.UnrenderParts | components/Preview.tsx:30-34 | writing rendered parts back gives their concatenation, when no part is a bare `**` or `***` |
| Preview.RenderLineRestores | components/Preview.tsx:23-35 | writing the pieces of a line back restores the line without its bullet, unless a part was a bare `**` or `***` |
| Preview.BareStarsPart | components/Preview.tsx:26-34 | a bare `**` or `***` is one part, kept by the bullet strip and rendered as an empty bold piece |
| Preview.NoMatchOnePart | components/Preview.tsx:26 | a line where no match starts splits into itself alone |
| Preview.LoneStarsRenderEmptyBold | components/Preview.tsx:26-34 | a line of just `**` or `***` renders as one empty bold piece |
| Preview.KeptLines | components/Preview.tsx:159-160 | a line is kept iff it is not blank; a description of blank lines keeps none |
| Preview.KeptLinesAppend | components/Preview.tsx:159-160 | filtering keeps order and multiplicity: the kept lines of `a + b` are those of `a` followed by those of `b` |
| Preview.KeptLinesOne | components/Preview.tsx:159-160 | a single line is kept, once, iff it is not blank |
| Preview.DescriptionBullets | components/Preview.tsx:159-161 | no more bullets than description lines (likewise lines 187-189) |
| Preview.BlankDescriptionNoBullets | components/Preview.tsx:159-160 | a blank description renders no bullet |
| Preview.StripScheme | components/Preview.tsx:43 | removes one leading `http://` or `https://` if present, else nothing |
| Preview.StripWww | components/Preview.tsx:43 | removes one leading `www.` if present, else nothing |
| Preview.CleanUrl | components/Preview.tsx:41-44 | empty gives empty; otherwise a suffix of the input, the part removed being one of `""`, `http://`, `https://`, `www.`, `http://www.` or `https://www.` |
| Preview.PrefixesCombine | components/Preview.tsx:43 | a scheme followed by `www.` is one of the six removable prefixes |
| Preview.CleanUrlGuardRedundant | components/Preview.tsx:42 | the empty-input guard agrees with the two replacements alone |
| Preview.CleanUrlDropsHttp | components/Preview.tsx:43 | an `http://` address not followed by `www.` is shown without the scheme |
| Preview.CleanUrlNotIdempotent | components/Preview.tsx:43 | only one scheme goes: `http://http://x` cleans to `http://x`, and again to `x` |
| Preview.SplitSkillAsWritten | components/Preview.tsx:130 | with no `:` the category is empty and the items the whole line; with one, category and items contain no `:`, and `category:items` only starts the line |
| Preview.SplitSkill | components/Preview.tsx:130 | with no `:` as above; with one, the category is the text before the first `:` and `category:items` is the whole line |
| Preview.AsWrittenAgreesIffOneColon | components/Preview.tsx:130 | the two splits agree exactly when the items hold no further `:` |
| Preview.SecondColonDropsRest | components/Preview.tsx:130 | for `a:b:c`, the code keeps only `b` as items; the intended split keeps `b:c` |
| Preview.SkillWithUrlLosesText | components/Preview.tsx:130 | `Web: https://x` shows ` https` as items as written, and ` https://x` as intended |
| Preview.RowOf | components/Preview.tsx:133-134 | a bold `category:` caption exactly when the category is not empty; the body is the items, or the category when there are no items |
| Preview.RenderSkill | components/Preview.tsx:130-135 | as written: a bold caption iff the line has a `:` not at its start; with a `:` the body holds no `:`; caption and body form a prefix of the line, or the category shows twice when there are no items |
| Preview.RenderSkillIntended | components/Preview.tsx:130-135 | as intended: a bold caption iff the line has a `:` not at its start; caption and body give back the whole line, or the category twice when there are no items |
| Preview.RenderSkillAgreesIffOneColon | components/Preview.tsx:130-135 | the drawn row is the intended one exactly when the items hold no second `:` |
| Preview.SecondColonRow | components/Preview.tsx:130-135 | for `a:b:c` the row shows caption `a:` and body `b`, where `b:c` is intended |
| Preview.ExperienceEndLabel | components/Preview.tsx:151 | `Present` when current, the end date otherwise |
| Preview.ProjectEndLabel | components/Preview.tsx:180 | never empty: the end date if given, `Present` otherwise |
| Preview.EndLabelsDiffer | components/Preview.tsx:180 | with no end date, a past job shows an empty end but a project shows `Present` |
| Preview.LinkTo | components/Preview.tsx:85-86 | a contact link keeps its caption, shows the cleaned URL, and targets `https://` plus it; what it shows is no longer than the URL |
| Preview.ShownIf | components/Preview.tsx:65-66 | a span appears, exactly once, when its field is given, and nothing appears otherwise |
| Preview.ContactLine1 | components/Preview.tsx:64-78 | in order: the location if given, `\|`, the phone if given, `\|`, the email if given; so both separators are always there and each field appears once iff given |
| Preview.ContactLine2 | components/Preview.tsx:81-101 | both links given: LinkedIn, `\|`, GitHub; one given: that link alone; none: nothing. Hence the separator appears iff both are given, and each link iff its URL is |
| Preview.LinksDistinct | components/Preview.tsx:81-101 | the LinkedIn link, the GitHub link and the separator are three different spans |
| Preview.InLine2 | components/Preview.tsx:81-101 | from its shape, the line holds the separator iff both links are given and each link iff it is given |
| Preview.ContactLine3 | components/Preview.tsx:104-111 | the portfolio line appears iff the URL is given, as a link to it |

## Left out

- Typewriter: restarting the reveal when the `text` or `speed` props change while mounted (the effect's dependencies, `components/Portfolio.tsx:62`) is not modelled. Every panel typewriter has a fixed text, except the summary, which changes only with the résumé.
- Typewriter: timer durations (`speed`, `startDelay`, the 2000 ms handshake delay) are not modelled. Timers are events in any order, which covers every timing.
- Typewriter.CompletesOnTickAfterFullText: counts one tick per Unicode scalar value. The source's `length` and `slice` count UTF-16 code units, so a character outside the Basic Multilingual Plane takes two ticks there, and after the first of them half a surrogate pair is shown.
- Typewriter: `showCursor`, `className` and the rendered cursor are presentation.
- Terminal: `activeTab`, `emailCopied`, `scrollToSection`, the clipboard and every `scrollIntoView` are browser effects.
- Terminal: `highlightTech` is a case-insensitive regular-expression loop that builds raw HTML for display.
- Terminal: the portfolio view's own skill-category split (`components/Portfolio.tsx:332`) is display only and is not part of this model. It destructures `split(':')` the same way, so it loses text after a second `:` as the finding below describes.
- PortfolioText.Lowercase: only ASCII letters are lower-cased. A non-ASCII letter stays as it is, and the `[a-z0-9]` filter then drops it either way, except where Unicode lower-casing yields an ASCII letter (such as `K`, U+212A).
- Editor: the list handlers copy the array but then assign into the shared item object (`newExp[index].company = …`), which also mutates the item held by the previous résumé value. The model edits values, so this aliasing is not captured.
- Editor: the `await` around the text service is modelled as atomic. Interleavings with other edits, and stale closures over `data`, are not captured.
- Editor: `loading` is modelled as set and reset within one handler, so it is always false between handlers. The disabled buttons appear as the `!loading` precondition.
- Editor: the text service (`optimizeText`, `bridgeGapWithProjects`) is a function parameter. `services/geminiService.ts` is not part of this model.
- Editor: `Date.now()` identifiers are parameters.
- Editor: `alert` becomes the `alerted` result of `ClickGapBridge`.
- Preview: fonts, styles, React keys and the `<strong>`/`<span>` elements are presentation. A bold part becomes a `Bold` piece.
- Preview.DescriptionBullets: states only the count bound and the blank case. Which lines are kept, in order, is stated on `KeptLines`, `KeptLinesAppend` and `KeptLinesOne`, and how each is rendered on `RenderLine`.
- Preview.CloseFrom: `.` is modelled as excluding exactly the ECMAScript line terminators (LF, CR, U+2028, U+2029), with no `s` flag.

## Findings

| source | as written | input that shows it | evidently intended | confidence | as-written member | corrected member |
|---|---|---|---|---|---|---|
| components/Preview.tsx:130 | `const [category, items] = skill.split(':')` keeps only the first two pieces, so any text after a second `:` is dropped from the skill row | `Web: https://x` shows items ` https` | the items are everything after the first `:` (` https://x`) | not executed | Preview.SplitSkillAsWritten, Preview.SecondColonDropsRest, Preview.RenderSkill, Preview.SecondColonRow | Preview.SplitSkill, Preview.RenderSkillIntended, Preview.RenderSkillAgreesIffOneColon |
