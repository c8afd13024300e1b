# MPlayer's playlist engine and its neighbours, verified

A Dafny model of parts of MPlayer 1.5: the playlist tree with its iterator, the option store whose
levels the iterator opens and closes, the command line parser that builds the tree, and six smaller
cores (packet side data, the key queue, property templates, two option text formats, edit decision
lists, frame accounting in the encoder). `dafny verify dfyconfig.toml` checks everything.

Code that changes things in place is modelled in place: items linked by pointers, a store whose
fields its methods update, byte buffers, a ring with two counters, strings edited inside a character
buffer. Every such method is tied to a function of the old state or to a specification that does not
mention the method's steps, and the theorems are about those.

## How the parts fit together

| files | what they hold |
|---|---|
| `Config`, `ConfigUndo`, `ConfigStore`, `ConfigLevels`, `ConfigNames` | options, save slots, aliases; what a pop restores, once and over whole runs; the store as a class; which values hold inside nested levels; what names and flags of options do |
| `PlayTree`, `Streams`, `Walk` | items, the tree their links describe, its expansion as a finite or cyclic stream, what remains from a position |
| `PlayIter`, `Playback` | the iterator; whole playback runs, also bounded ones of endless lists |
| `Shuffle`, `RandomDraw`, `DrawReach` | random order in one group; the draw with the rounding of its floats; which choices it can make |
| `TreeEdit` | list surgery and cleanup |
| `CommandLine`, `CmdParser`, `Player` | the plan a command line means; the parser on the heap; parsing, cleaning and listing together |
| `Numbers` | numbers in text as the C library reads them, for the parsers |
| `SideData` | merging side data into a packet's bytes and splitting it off again |
| `KeyFifo` | the bounded queue of key events |
| `Template` | property expansion with nested conditions |
| `StringList`, `SubConfig` | list values and the operations on them; sub-option values |
| `EditList`, `EditSkips` | parsing and following edit decision lists; where they lead playback, told from their lines |
| `FrameRate` | duplicating and dropping frames, following the sound |

The central invariant joins four files. The iterator stands somewhere in a tree (`Walk.Ctx` is the
path to that place) and has one level of the option store open for each group it is in and one for
the entry that plays (`PlayIter.Iter.Balanced`); `ConfigUndo.Open` says what those levels still hold,
so that closing them restores the options, and `ConfigLevels.Stack` and `InForce` say which values
hold while they are open. Each step keeps this, answers with the head of what the recursive expansion
says is left, and leaves the tail.

An option is in `ConfigUndo.Kept` when the store before the run lets every pop give it back: the push
saves it, no settable alias aims at its top slot, and it is not of the old style. `Iter.Undone`
promises the options in `Kept` and the level; `ConfigUndo.RunsRestoreExactly` shows that no other
option with a variable of its own could be promised. Inside the outermost group more can be: there
every new-style saved option (`ConfigUndo.Managed`) comes back after each entry, whatever aliases it
has, and holds what the groups and the entry give it (`PlayIter.InnerHolding`).

Which value an option holds while levels are open is stated for steady variables (`ConfigLevels.Steady`,
a condition that can be computed): those of no option that the early pass over the command line sets,
directly or through a group. MPlayer's one early group is `-noconfig`; with it in the table every
variable is steady but those of the early options themselves (`ConfigLevels.NoconfigSteady`).

## What the code turns out not to do

- `m_config_pop` does not restore an old-style option that was not set before the push, nor one whose
  registration-time slot an alias still writes. `ConfigUndo.PopRestoresExactly` gives the exact condition.
- A run of the playlist does not restore old-style options at all, screenw and screenh among them: the
  first push clears the mark that makes the push save such an option, so the next one skips it
  (`ConfigUndo.LegacyForgets`). `ConfigUndo.RunsRestoreExactly` gives the exact condition for runs.
- The same `-loop` takes any number, in base 8, 10 or 16, behind a group but only -1 to 10000 behind an
  entry, and an empty group counts as an entry (`CommandLine.ParseFails`).
- Side data types that need the high bit, and more than 32 elements, do not survive merging and
  splitting (`SideData.SplitUndoesMerge`).
- A key press that itself carries the reset flag can stay held after its release
  (`KeyFifo.ReleasedExactly`, `KeyFifo.FlaggedPressSticks`).
- The template escape `\xHH` writes its second digit again as a letter (`Template.SecondDigitRemains`),
  and `\xH` its only one (`Template.OnlyDigitRemains`).
- A printed string list is read back only if it is neither empty nor one empty string, no element holds
  a comma and none but the last ends in a backslash (`StringList.PrintExactly`).
- An edit list action such as 65537 becomes a mute when it is stored in 16 bits, and inverts the mute
  state from there on (`EditList.MuteExactly`).
- A skip limit of 0 is documented in mencoder.c:1533-1536 to disable duplicating and dropping; the
  correction by presentation times ignores it (`FrameRate.ZeroLimit`).
- Loading an edit list without a usable record while the sound is muted by the one before leaves it
  muted, as no reset follows (`EditSkips.SeekInList`).
- In `-del` an empty text is the number 0, so a trailing separator deletes the first element as well:
  `-del 1,` empties a list of two (`StringList.EmptyNamesFirst`, `StringList.TrailingComma`).
- The 64 highest random numbers round up to the number of choices and draw none. The code then takes the
  round for played and cuts it short (`RandomDraw.DrawExactly`, `Shuffle.PlayAll`).
- In some groups of more than 12 million entries one entry can never be the next one, because
  rounding passes its choice over (`DrawReach.AllDrawnExactly`, `DrawReach.PassedOver`).
- A seek that lands on the very end of a skip line is asked for again, by 0 seconds
  (`EditSkips.LandingRepeats`), and a skip line left behind between two pictures seeks back to its end
  (`EditSkips.JumpsLead`).
- A shuffled group that ends leaves its level of the option store open (`Shuffle.PlayAll`).

## Model

| member | source | states |
|---|---|---|
| ConfigUndo.PopRestoresExactly | MPlayer-1.5/m_config.c:230-302 | an option has its old value after push, anything balanced, and pop, if and only if it is neither global nor excepted from saving, not of the old style and unset, and no settable alias aims at its top slot |
| ConfigUndo.PopRestores | MPlayer-1.5/m_config.c:269-302 | pop restores value and level whatever sets, writes and nested pushes and pops came between |
| ConfigUndo.SkippedForgets | MPlayer-1.5/m_config.c:242-250 | an option the push skips keeps every value written before the pop |
| ConfigUndo.GlobalsRemain | MPlayer-1.5/m_config.c:242-290 | a global option, or one excepted from saving, comes out of every push, balanced body and pop with the value it had before the pop |
| ConfigUndo.AliasForgets | MPlayer-1.5/m_config.c:471-480 | a value set through an alias of the top slot survives the pop |
| ConfigUndo.RunsRestoreExactly | MPlayer-1.5/m_config.c:230-302 | an option with a variable of its own keeps its value over all runs of pushes and pops, whatever is set between them, if and only if it is in Kept: not global, not excepted from saving, not of the old style, out of reach of every settable alias |
| ConfigUndo.LegacyForgets | MPlayer-1.5/m_config.c:239-262 | an old-style option that the first push saves and marks unset keeps what is written after the second push |
| ConfigUndo.LaterPopsShield | MPlayer-1.5/m_config.c:470-480 | whatever has happened since a push that is still open, no alias made before it reaches the slot that the next pop restores from |
| ConfigUndo.LaterPopsUndo | MPlayer-1.5/mencoder.c:644-648 | with one push more than pops, every value set through an alias or otherwise is undone by the next pop |
| ConfigUndo.OpenRun | MPlayer-1.5/m_config.c:230-302 | every sequence of operations that closes no more levels than are open keeps what the open levels will restore |
| ConfigUndo.PopSound | MPlayer-1.5/m_config.c:269-302 | pop never empties a slot chain and leaves levels strictly decreasing down to 0 |
| ConfigUndo.ParseSound | MPlayer-1.5/m_config.c:400-483 | setting an option keeps the store sound and changes neither the level nor the table |
| ConfigLevels.ParseAlike | MPlayer-1.5/m_config.c:400-483 | a set acts on a steady variable in the same way in any two stores with the same options and value of it, whatever their slots and marks, and returns the same code |
| ConfigLevels.ParseCode | MPlayer-1.5/m_config.c:400-483 | the code a set returns hangs on the table and the mode only, not on values, slots, marks or on whether anything is stored |
| ConfigLevels.UnderIs | MPlayer-1.5/m_config.c:384-398 | the test for a name below a group holds exactly of the options that some sub-option name finds |
| ConfigLevels.EarlyFlatSteady | MPlayer-1.5/m_config.c:431-437 | when early groups hold early options only, the variables that are not steady are exactly those of early options |
| ConfigLevels.NoconfigSteady | MPlayer-1.5/cfg-common.h:314 | the table with -noconfig registered in it leaves exactly the other variables steady |
| ConfigLevels.StackPop | MPlayer-1.5/m_config.c:269-302 | closing the innermost of many levels gives back all that could be given back when it was opened, inside another level every saved option, and leaves the others able to do the same |
| ConfigLevels.InnerInForce | MPlayer-1.5/m_config.c:230-302 | inside the outermost level every saved option, aliases or not, holds what the levels from there on give it |
| PlayIter.InnerHolding | MPlayer-1.5/playtree.c:445-475 | while an entry plays, so does every saved option for the groups inside the outermost one and the entry |
| ConfigLevels.InForcePush | MPlayer-1.5/playtree.c:445-475 | one more level puts its settings on top of those that the levels around it give |
| ConfigLevels.InForcePop | MPlayer-1.5/m_config.c:269-302 | after a level is closed the values hold again that the levels around it give |
| ConfigLevels.InnermostWins | MPlayer-1.5/playtree.c:458-472 | what the innermost item sets last is the value that holds, whatever the groups around it set |
| ConfigStore.RegisterSound | MPlayer-1.5/m_config.c:304-366 | registration gives each variable one owner and makes every further option of it an alias of a live slot |
| ConfigStore.MConfig.AddOption | MPlayer-1.5/m_config.c:304-366 | the in-place registration yields the registered store |
| ConfigStore.MConfig.FindAlias | MPlayer-1.5/m_config.c:335-345 | the search finds the newest option on the same variable, through an alias its owner |
| ConfigStore.MConfig.Push | MPlayer-1.5/m_config.c:230-266 | the loop saves exactly the eligible options, one level up |
| ConfigStore.MConfig.DropSlots | MPlayer-1.5/m_config.c:289-295 | the inner loop stops at the first slot below the level and never runs off the chain |
| ConfigStore.MConfig.Pop | MPlayer-1.5/m_config.c:268-302 | the loop restores exactly what the popped store says |
| ConfigStore.MConfig.GetOption | MPlayer-1.5/m_config.c:384-398 | the newest matching option, wildcards included |
| ConfigNames.WildcardMatches | MPlayer-1.5/m_config.c:384-398 | a wildcard finds every text that begins with its stem and none that is shorter |
| ConfigStore.MConfig.ParseOption | MPlayer-1.5/m_config.c:400-483 | lookup, mode checks, storing and sub-options as specified, with the same return code |
| ConfigNames.SetsExactly | MPlayer-1.5/m_config.c:415-480 | a name sets the variable of the newest option it finds exactly when mode and flags allow it, and is refused exactly when the mode does not allow the name |
| ConfigNames.SubOptionFound | MPlayer-1.5/m_config.c:314-334 | a registered sub-option is found by the group's name, a colon and its own name |
| ConfigNames.SubOptionSet | MPlayer-1.5/m_config.c:440-470 | setting a registered group with a sub-option named in it sets that sub-option |
| ConfigStore.MConfig.ParseSubOptions | MPlayer-1.5/m_config.c:440-470 | sub-options are set in order until one fails, whose code is folded |
| ConfigNames.SubErrors | MPlayer-1.5/m_config.c:452-466 | an unknown sub-option or one without its value makes the group invalid, any other error is passed on, and nothing behind it is set |
| ConfigNames.AliasUnprotects | MPlayer-1.5/m_config.c:335-366 | an option registered on the variable of an older one aims at the slot that holds its value, and pops no longer restore it once the new one can be set |
| PlayTree.IsValid | MPlayer-1.5/playtree.c:660-681 | true exactly when the item or something below it can be played |
| PlayTree.PlayableExpands | MPlayer-1.5/playtree.c:660-681 | what is valid expands to at least one entry |
| Walk.RestUp | MPlayer-1.5/playtree.c:611-617 | at the end of the last round what remains is what is left outside the group |
| Walk.RestRound | MPlayer-1.5/playtree.c:603-615 | at the end of any other round one more round follows, with the counter lowered |
| Walk.RestDown | MPlayer-1.5/playtree.c:726-761 | entering a group with its counter plays its whole expansion and then what remained |
| PlayIter.Iter.constructor | MPlayer-1.5/playtree.c:477-502 | a fresh iterator stands before the root with the parent's loop counter and nothing open |
| PlayIter.Iter.PushParams | MPlayer-1.5/playtree.c:445-475 | one level is opened and the item's parameters are set in it |
| PlayIter.Sibling | MPlayer-1.5/playtree.c:578-591 | the sibling d places away, or null and exactly what is left of d, at least one |
| PlayIter.Iter.Step | MPlayer-1.5/playtree.c:547-658 | a step forward answers with the next entry of the expansion; every step terminates with endless loops too, is never an error, keeps one level open for each group and the entry with their values in force, and at the end every option in Kept has its value from before |
| PlayIter.Iter.UpStep | MPlayer-1.5/playtree.c:683-724 | leaves the group with its saved counter and one level less and goes on behind it |
| PlayIter.Iter.DownStep | MPlayer-1.5/playtree.c:726-761 | enters the group with one level more and continues with its expansion |
| PlayIter.Iter.GetFile | MPlayer-1.5/playtree.c:763-792 | the files of an entry one after the other, and null after the last |
| Playback.Play | MPlayer-1.5/playtree.c:547-761 | for every n the first n entries played are those of the expansion, whatever is set while they play; when the run ends every option in Kept has its value from before |
| Playback.PlayNext | MPlayer-1.5/mplayer.c:4149-4157 | the step to the next entry; it arrives with the values that the groups around the entry and then the entry itself give |
| Playback.NextFile | MPlayer-1.5/playtree.c:889-908 | going forward: the head of all files still to come, or null exactly when there is none |
| Playback.ListFiles | MPlayer-1.5/gui/interface.c:1208-1210 | the loop collects all files in order and ends with every option in Kept as before |
| Playback.FirstFiles | MPlayer-1.5/playtree.c:889-908 | for every n the first n files, of endless lists too; fewer exactly when the list ends there, with every option in Kept as before |
| Playback.Rewind | MPlayer-1.5/command.c:2909-2911 | going up to the end gives every option in Kept back, except for the level of an entry that is the root itself |
| RandomDraw.DrawExactly | MPlayer-1.5/playtree.c:535 | the draw is below the count, except that exactly the 64 highest random numbers give the count itself |
| RandomDraw.DrawNear | MPlayer-1.5/playtree.c:535 | the draw is the place of the random number in its range, scaled to the count, within the rounding of floats |
| DrawReach.AllDrawnExactly | MPlayer-1.5/playtree.c:535 | every choice is drawn by some random number if and only if the remainder of one fixed number by the count is small, as it is for all counts up to 12582912 |
| DrawReach.PassedOver | MPlayer-1.5/playtree.c:535 | a count for which one choice is never drawn |
| RandomDraw.FloatScaled | MPlayer-1.5/playtree.c:535 | a number of at most 24 bits is exact as a float at any scale |
| Shuffle.RndStep | MPlayer-1.5/playtree.c:519-544 | the unplayed sibling whose place among the unplayed ones is that of the random number in its range, up to one place and the rounding; null exactly when all were played or the number is one of the 64 highest |
| Shuffle.EverySibling | MPlayer-1.5/playtree.c:519-544 | every unplayed sibling is drawn by some random number when their count is one for which all are |
| Shuffle.Choose | MPlayer-1.5/playtree.c:537-540 | choice number r is the sibling with r unplayed ones before it, null exactly when there are not that many |
| Shuffle.Unmark | MPlayer-1.5/playtree.c:429-440 | takes the mark off an item and everything below it, at any depth, and leaves the links |
| Shuffle.ShuffleIter.Step | MPlayer-1.5/playtree.c:576-602 | no repetition within a round; a new round when all were played or a draw failed, as often as the loop count allows; exactly the failed draws leave a round incomplete; one level for the group and one for the entry, the group's left open at the end |
| Shuffle.PlayAll | MPlayer-1.5/playtree.c:594-602 | a group with loop count k is played in 1 + k rounds without repetition, as many of them incomplete as draws failed, so each one is a permutation if and only if no draw did |
| Shuffle.EveryOrder | MPlayer-1.5/playtree.c:519-544 | for up to 12582912 entries every order is produced by some random numbers |
| Shuffle.PlayOrder | MPlayer-1.5/playtree.c:519-602 | a round is played in whatever order its random numbers produce |
| Shuffle.CompleteExactly | MPlayer-1.5/playtree.c:594-602 | rounds without repetition are permutations exactly when none is incomplete |
| TreeEdit.Remove | MPlayer-1.5/playtree.c:176-221 | the list without the item, the item alone, the parent's first child right |
| TreeEdit.Append | MPlayer-1.5/playtree.c:108-127 | the list with the entry at its end; nothing when the entry is the item itself |
| TreeEdit.Prepend | MPlayer-1.5/playtree.c:129-152 | the list with the entry in front, which becomes the first child |
| TreeEdit.Insert | MPlayer-1.5/playtree.c:154-174 | the list with the entry right behind the item |
| TreeEdit.SetChild | MPlayer-1.5/playtree.c:223-253 | the siblings become the children, the former children lose their parent |
| TreeEdit.Cleanup | MPlayer-1.5/playtree.c:794-826 | the tree without anything that cannot be played, or null when nothing can |
| TreeEdit.DropUseless | MPlayer-1.5/playtree.c:807-816 | the first loop keeps exactly the valid children, in order |
| TreeEdit.CleanedGood | MPlayer-1.5/playtree.c:794-826 | cleaning leaves only groups with something to play and changes neither the expansion nor the sequence of all entries from left to right |
| TreeEdit.CleanedLeaves | MPlayer-1.5/playtree.c:807-822 | no entry is lost or moved, behind endless groups neither |
| CommandLine.ParseFails | MPlayer-1.5/parser-mpcmd.c:144-210 | a command line is refused if and only if some prefix closes more groups than it opened or some -loop has a text that its place does not take: any integer for a group, -1 to 10000 behind an entry |
| CommandLine.LoopBehindEntry | MPlayer-1.5/cfg-mplayer.h:317 | behind an entry a number outside -1 to 10000 refuses the line |
| CommandLine.LoopBehindGroup | MPlayer-1.5/parser-mpcmd.c:166-188 | a number behind a group is its loop count, and no number above zero makes it loop for ever |
| CommandLine.ParseRender | MPlayer-1.5/parser-mpcmd.c:110-275 | every tree that can be written as a command line is read back |
| CommandLine.PlaysNamesInOrder | MPlayer-1.5/parser-mpcmd.c:110-275 | without loop options the names play in the order they are given |
| CmdParser.Parser.TakeArg | MPlayer-1.5/parser-mpcmd.c:114-275 | one argument changes the tree under construction as it changes the plan |
| CmdParser.Parser.AddEntry | MPlayer-1.5/parser-mpcmd.c:75-82 | the entry becomes the first child of the open group or follows the last entry |
| CmdParser.Parser.OpenGroup | MPlayer-1.5/parser-mpcmd.c:127-142 | a brace opens an empty group in its place |
| CmdParser.Parser.CloseGroup | MPlayer-1.5/parser-mpcmd.c:144-152 | a closing brace goes back to the group around, or fails at the root |
| CmdParser.ParseCommandLine | MPlayer-1.5/parser-mpcmd.c:98-290 | the linked tree is the plan of the arguments; null exactly when the line is refused |
| Player.ExpandPlan | MPlayer-1.5/playtree.c:547-761 | the expansion of a parsed tree names the files of its plan |
| Player.CleanedReady | MPlayer-1.5/mplayer.c:2830-2837 | a cleaned tree meets all the iterator demands and plays what the plan says |
| Player.ListCommandLine | MPlayer-1.5/mplayer.c:2826-2839 | parsing, cleaning and iterating yields the files of the plan in order, fails exactly when the line is refused, and gives every option in Kept back |
| Player.ParseAndClean | MPlayer-1.5/mplayer.c:2826-2831 | a refused line, a line that plays nothing and a tree to walk are told apart as the plan says |
| Player.PlayCommandLine | MPlayer-1.5/mplayer.c:2826-2839 | for every n, the first n files of any accepted line, endless groups included; at the end every option in Kept is given back |
| SideData.SplitUndoesMerge | MPlayer-1.5/av_helpers.c:178-258 | splitting gives payload and elements back if and only if types fit in seven bits and there are at most 32 elements |
| SideData.MergeUndoesSplit | MPlayer-1.5/av_helpers.c:214-258 | merging what was split gives the identical bytes |
| SideData.TrailerParse | MPlayer-1.5/av_helpers.c:219-232 | whatever the backward reading accepts is what the forward writing produces |
| SideData.TwoElementBytes | MPlayer-1.5/av_helpers.c:192-210 | the layout byte by byte: the last element first and marked, big-endian lengths, the marker |
| SideData.Packet.MergeSideData | MPlayer-1.5/av_helpers.c:178-212 | refuses exactly sizes over INT_MAX; otherwise a new buffer holds payload, chunks, marker and zeros |
| SideData.Packet.SplitSideData | MPlayer-1.5/av_helpers.c:214-258 | success, range error and refusal exactly as the bytes say, with payload and elements |
| SideData.Packet.CountChunks | MPlayer-1.5/av_helpers.c:219-231 | the validating pass accepts exactly the parsable bytes and counts their elements |
| SideData.Packet.TakeChunks | MPlayer-1.5/av_helpers.c:240-254 | the copying pass reads in bounds, keeps the size non-negative and takes the parsed elements |
| KeyFifo.NoStuckKey | MPlayer-1.5/mp_fifo.c:31-59 | after any run of puts and gets that ends by offering a release the key is not held |
| KeyFifo.StaysReleased | MPlayer-1.5/mp_fifo.c:31-69 | it stays so over every later run that does not press it |
| KeyFifo.ReleaseFollowsPress | MPlayer-1.5/mp_fifo.c:37-59 | behind a queued press the history holds the release or a reset |
| KeyFifo.FullEndsInReset | MPlayer-1.5/mp_fifo.c:43-55 | a full queue always ends in an event that resets all keys |
| KeyFifo.QueuedExactly | MPlayer-1.5/mp_fifo.c:31-59 | an event is queued as it is with more than one slot free, a press only if more than half is; with one slot free a reset stands in for it unless the last event was one |
| KeyFifo.ReserveKept | MPlayer-1.5/mp_fifo.c:36-39 | after any run the presses still to be read stand in the first half of the queue |
| KeyFifo.ReleasedExactly | MPlayer-1.5/mp_fifo.c:31-59 | a release is lost if and only if one slot is free and its own flagged press was queued last |
| KeyFifo.FlaggedPressSticks | MPlayer-1.5/mp_fifo.c:44-46 | a concrete run in which that happens |
| KeyFifo.Fifo.PutInternal | MPlayer-1.5/mp_fifo.c:31-59 | the ring refines the bounded sequence with its reservation of slots |
| KeyFifo.Fifo.GetKey | MPlayer-1.5/mp_fifo.c:61-69 | events come out in the order they were queued |
| KeyFifo.Fifo.PutKey | MPlayer-1.5/mp_fifo.c:79-103 | offers the code and at most one double click, or drops a system double click |
| KeyFifo.ReleaseDoubles | MPlayer-1.5/mp_fifo.c:100-103 | so does its release |
| KeyFifo.PressDoubles | MPlayer-1.5/mp_fifo.c:79-99 | a second press of a mouse button in time adds the double click of that button, and double clicks of the system are dropped |
| KeyFifo.ReleasedByCall | MPlayer-1.5/mp_fifo.c:79-103 | no double click that a release adds undoes it |
| KeyFifo.Fifo.Uninit | MPlayer-1.5/mp_fifo.c:105-111 | back to the empty queue |
| Template.ScanIsEval | MPlayer-1.5/m_property.c:121-188 | for every text and level the flat scan with its counters writes the value of the recursive reading |
| Template.SkippedUntilClosed | MPlayer-1.5/m_property.c:148-150 | a failed condition suppresses everything at any depth up to its own parenthesis |
| Template.ItemsRender | MPlayer-1.5/m_property.c:121-177 | reading a rendered tree gives the tree back, whatever follows |
| Template.ExpandRendered | MPlayer-1.5/m_property.c:116-192 | expanding a rendered tree gives its value |
| Template.ConditionExpands | MPlayer-1.5/m_property.c:148-172 | a condition writes what is inside it exactly if the property is available, a negated one exactly if it is not |
| Template.RenderNeverOverruns | MPlayer-1.5/m_property.c:144-147 | a rendered tree never leads the scan past the end of the text |
| Template.SecondDigitRemains | MPlayer-1.5/m_property.c:133-147 | a hexadecimal escape leaves its second digit in the text |
| Template.OnlyDigitRemains | MPlayer-1.5/m_property.c:133-147 | a hexadecimal escape of one digit leaves that digit in the text |
| Template.EscapedExpands | MPlayer-1.5/m_property.c:121-147 | a backslash and a letter expand to line feed, return, tab, escape or the letter itself |
| Template.NoOverrun | MPlayer-1.5/m_property.c:121-147 | a text that does not end in a backslash, which a caller can check, never makes the scan read past its end |
| Template.ExpandString | MPlayer-1.5/m_property.c:116-192 | the loop yields the value of the recursive reading, terminated |
| Template.Buffer.Append | MPlayer-1.5/m_property.c:181-186 | the text grows by the piece and the position stays below the size |
| StringList.PassesAgree | MPlayer-1.5/m_option.c:597-633 | splitting finds the counted items, and one more exactly when the text ends in a separator |
| StringList.JoinExactly | MPlayer-1.5/m_option.c:552-633 | splitting a joined list gives it back if and only if no element but the last ends in a backslash |
| StringList.SplitJoinable | MPlayer-1.5/m_option.c:614-633 | no text at all splits into a list with such an element |
| StringList.ParseJoined | MPlayer-1.5/m_option.c:592-634 | a joined list is a valid value for it unless the list is empty or one empty string |
| StringList.PrintExactly | MPlayer-1.5/m_option.c:675-694 | a printed list is read back if and only if it is neither empty nor one empty string, no element has a comma and only the last may end in a backslash |
| StringList.GetNextSep | MPlayer-1.5/m_option.c:552-563 | finds the first unprotected separator; in editing mode the buffer holds the unprotected text before it |
| StringList.CountItems | MPlayer-1.5/m_option.c:597-605 | the counting pass counts and changes nothing |
| StringList.SplitItems | MPlayer-1.5/m_option.c:614-633 | the splitting pass fills the slots with the list and a null and never needs more than n + 2 |
| StringList.ParseItems | MPlayer-1.5/m_option.c:592-634 | missing, out of range or the list, as the text says, with or without storing it |
| StringList.StrListAdd | MPlayer-1.5/m_option.c:474-499 | the items stand behind or before the old list in one new list |
| StringList.StrListDel | MPlayer-1.5/m_option.c:501-550 | exactly the elements whose places no text names are left, in order; places are those of the old list whatever was deleted before |
| StringList.DeleteUndoesAdd | MPlayer-1.5/m_option.c:474-550 | deleting by their numbers the places that an addition filled gives the list back |
| StringList.SuffixDeletes | MPlayer-1.5/m_option.c:501-550 | with the suffix for deletion the number of a place takes that element out |
| StringList.SuffixEffects | MPlayer-1.5/m_option.c:571-590 | the suffix of the name replaces, adds behind, adds before or clears, and an unknown one changes nothing |
| StringList.EmptyNamesFirst | MPlayer-1.5/m_option.c:512-530 | a deletion that holds an empty text deletes the first element |
| StringList.TrailingComma | MPlayer-1.5/m_option.c:512-530 | the concrete text that shows it |
| StringList.ParseStrList | MPlayer-1.5/m_option.c:565-652 | the suffix of the name picks the operation; its answer and the new list are as specified, and nothing changes when the value is only checked or refused |
| SubConfig.ParseExactly | MPlayer-1.5/m_option.c:962-1053 | parsing inverts plain, quoted and counted forms in any mixture, where the values fit their forms, if and only if the list is not empty, names are clean and accepted, no value is empty and the last item is not nameless |
| SubConfig.ParsedClean | MPlayer-1.5/m_option.c:979-1042 | whatever is parsed has clean, known, accepted sub-options |
| SubConfig.TakeFront | MPlayer-1.5/m_option.c:979-1042 | written sub-options are read first and leave the rest of the text as it is |
| SubConfig.TakePlainExactly | MPlayer-1.5/m_option.c:1010-1014 | a plain value is taken whole if and only if it has no colon and begins neither with a quote nor with a percent sign |
| SubConfig.TakeQuotedExactly | MPlayer-1.5/m_option.c:985-998 | a quoted value is taken whole if and only if it has no quote in it |
| SubConfig.FirstFault | MPlayer-1.5/m_option.c:979-1035 | an unknown or refused sub-option, an unclosed quote, or text behind a quote or a counted value gives its own error, whatever clean sub-options stand before it |
| Numbers.NumberOfDecimal | MPlayer-1.5/m_option.c:999-1006 | a written length is read again as the same number |
| Numbers.HexBase | MPlayer-1.5/parser-mpcmd.c:167 | a text that begins with 0x is read in base 16 |
| Numbers.OctalBase | MPlayer-1.5/parser-mpcmd.c:167 | one that begins with 0 in base 8 |
| SubConfig.TakeRenderedValue | MPlayer-1.5/m_option.c:999-1009 | a value of any characters behind its length is taken whole |
| SubConfig.ParseSubconf | MPlayer-1.5/m_option.c:962-1053 | the loop computes the recursive reading with its four errors |
| EditList.ParseOrdered | MPlayer-1.5/edl.c:92-146 | the records are strictly ordered and disjoint |
| EditSkips.AcceptsAll | MPlayer-1.5/edl.c:92-121 | all lines are used if and only if they are well-formed, of some length and follow each other |
| EditSkips.Lengths | MPlayer-1.5/edl.c:122-143 | every record knows its own length |
| EditList.MuteExactly | MPlayer-1.5/edl.c:122-143 | muted exactly inside the mute lines, at all times, if and only if no action number turns into a mute when cut to 16 bits |
| EditList.MutedByPassed | MPlayer-1.5/mplayer.c:2676-2700 | for ordered records the toggles passed decide the mute state |
| EditList.ResetThenAdvance | MPlayer-1.5/mplayer.c:2668-2725 | the reset walk and one record more reach the state of the whole list |
| EditList.FollowAgrees | MPlayer-1.5/mplayer.c:2705-2725 | one record a call at rising times agrees with a reset once the next record is later |
| EditList.FollowSettles | MPlayer-1.5/mplayer.c:2705-2725 | as many calls as there are records to pass are enough |
| EditList.ParseFile | MPlayer-1.5/edl.c:77-154 | the doubly linked list holds the records of the accepted lines |
| EditList.AllocNew | MPlayer-1.5/edl.c:36-52 | a record at the end, linked both ways |
| EditList.Player.ResetWalk | MPlayer-1.5/mplayer.c:2668-2703 | stops at the first record not over, with its parity and the mixer in step, or jumps back to that record |
| EditList.Player.Update | MPlayer-1.5/mplayer.c:2651-2726 | the view of the list that is due, which is that of the whole list after a reset and one record on without; it jumps back exactly when due and skips as the record says |
| EditList.Player.LoadFile | MPlayer-1.5/mplayer.c:2639-2648 | loading over a list asks for a reset |
| EditList.Player.Sought | MPlayer-1.5/mplayer.c:2770-2773 | after a seek the view due at any time is that of the whole list, and a jump back is due exactly for a seek backwards into a record |
| EditSkips.InsideExactly | MPlayer-1.5/mplayer.c:2676-2696 | the walk stops inside a record exactly when some line covers the time, and the record begins where the line does |
| EditSkips.LandingRepeats | MPlayer-1.5/mplayer.c:2680-2714 | on the end of a skip line the answer is a seek by 0 seconds |
| EditSkips.JumpsLead | MPlayer-1.5/mplayer.c:2705-2714 | wherever the list is followed, a jump leads to the end of a skip line that has begun |
| EditSkips.SkipsExactly | MPlayer-1.5/mplayer.c:2672-2714 | after a reset exactly the skip lines that cover the time are skipped, to their ends |
| EditSkips.WatchOne | MPlayer-1.5/mplayer.c:2651-2726 | one update of such a run: a jump leads to the end of a skip line that has begun, and without one nothing is cut out and the list is caught up |
| EditSkips.Watch | MPlayer-1.5/mplayer.c:2651-2773 | over a whole run with its jumps carried out and short steps, no picture is shown that a skip line cuts out, and exactly those in mute lines are muted |
| EditSkips.SeekInList | MPlayer-1.5/mplayer.c:2639-2726 | after a list was loaded and a seek made, the update skips to the end of exactly the skip line that covers the time, or goes back to just before the line the seek went back into, and mutes exactly inside the mute lines; without records it changes nothing |
| FrameRate.Encode | MPlayer-1.5/mencoder.c:1436-1602 | over a whole run the time written is the time read plus both corrections less the total correction; frames written, skipped and lost add up; without a limit the output is never two frames behind the source as corrected, and with any limit but 0 never one ahead |
| FrameRate.Encoder.CorrectionIsToward | MPlayer-1.5/mencoder.c:1588-1602 | when the muxer's clock shows what was written, the correction moves the total a bounded tenth of the way towards the source's drift |
| FrameRate.DriftFollowed | MPlayer-1.5/mencoder.c:1588-1602 | towards a steady drift the total never overshoots; it closes in by the whole bound far away and by a tenth of what is left within ten bounds |
| FrameRate.Encoder.Turn | MPlayer-1.5/mencoder.c:1436-1602 | one frame is skipped, kept or repeated as decided, the account is kept, and a timer below one period stays below it unless the limit is 0 |
| FrameRate.Encoder.CheckFrame | MPlayer-1.5/mencoder.c:1458-1486 | the decision in closed form, at most one skip; with any limit but 0 a timer below two periods ends below one; the times end above minus two periods and, if below three, below two |
| FrameRate.Encoder.CheckTimer | MPlayer-1.5/mencoder.c:1463-1470 | a frame is skipped exactly for a timer of a period or more and a limit that is not 0; whole periods owed are repeated, and what stays owed has used up the limit |
| FrameRate.Encoder.CheckPts | MPlayer-1.5/mencoder.c:1475-1484 | the presentation times cancel a skip or repeat beyond two periods, one frame fewer is written from two periods on, and they end within two periods |
| FrameRate.Encoder.OutputFrame | MPlayer-1.5/mencoder.c:1490-1548 | one picture is written unless skipped or never delivered, which the timer pays for |
| FrameRate.Encoder.Settle | MPlayer-1.5/mencoder.c:1553-1568 | the repeats are written and counted, the skip is counted |
| FrameRate.Encoder.FollowSound | MPlayer-1.5/mencoder.c:1570-1602 | the clamped tenth of the delay goes to both totals, which is a step towards the drift |
| FrameRate.CorrectionsBounded | MPlayer-1.5/mencoder.c:1463-1484 | without a limit the timer ends above minus one and the times above minus two periods |
| FrameRate.ZeroLimit | MPlayer-1.5/mencoder.c:1463-1484 | with limit 0 the timer decides nothing, the times still do beyond two periods |

## Left out

- PlayIter.Iter.Step: states which entry follows only for steps forward; the code does not mirror the loop counter going back, and a step of more than one across a group is not made of single steps.
- PlayIter.Iter.UpStep: states where it lands for one place forward or none, not for larger or backward distances; called on an entry at the top it answers END with that entry's level still open; the contract says so instead of promising it undone.
- PlayIter.Iter.DownStep: states which entry is reached for entering at the front; at the back only that the invariant holds.
- ConfigLevels.InForcePush: which value holds inside open levels is stated for steady variables only, not for those that -noconfig or another option of the early pass sets; that they come back is.
- ConfigLevels.ParseAlike: a parsed value arrives finished; the options that compute theirs from what the slot holds, as lists do for -add, -pre and -del, are not put into the store.
- Playback.NextFile: forward only, the direction of the macro in playtree.h:277; nothing is promised for the other one.
- Playback.PlayNext: one entry forward; the step count a user asks for is not modelled.
- Playback.ListFiles: for trees that do not loop for ever, as the loop itself would not end; Playback.FirstFiles is the bounded form for all trees.
- Shuffle.EveryOrder: for groups of up to 12582912 entries; above that `DrawReach.AllDrawnExactly` says for which counts every choice can be drawn.
- EditSkips.Watch: for steps in which no two records begin; in longer ones records are passed late, one a call.
- Shuffle.ShuffleIter.Step: one shuffled group of fewer than 2^24 entries, walked with a config; nested shuffled groups are not modelled. It ends if the generator ever gives a number that is not one of the 64 highest.
- RandomDraw.DrawExactly: for a generator up to 2^31 - 1 and floats kept in single precision.
- Template.ExpandString: templates that end in a lone backslash are excluded, because the code reads past the end of the string there.
- FrameRate.Encoder.Turn: without a control file of a first pass.
- Trees that were not cleaned: the step on an item with nothing to play calls itself on the same item.
- A root among siblings with a looping parent plays one round more than its loop count; the specification of the iterator follows the code there.
- Options of the parser other than group loops, the playlist option, DVD title ranges and the double dash.
- The ASX parser, playlist files, profiles, options that call functions, and pre-parsing beyond its store rule.
- Allocation failure, freeing and ownership of memory, copies of strings.
- Overflow of sizes beyond 64 bits, of the queue's counters and of loop counters; they are unbounded here.
- Rounding of times, which are real numbers; only the random draw is rounded as the code does.
- The key interpreter's limit on the number of keys it remembers as held.
- Flags of key codes are kept apart from the number of the key instead of in one integer.
- The encoder's own use of edit lists, and its pictures: a filter says only whether one was delivered.
- Decoding, demuxing, output drivers, drawing, networking, and all messages.
