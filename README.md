# outlineize, modelled in Dafny

`outlineize.py` renumbers the points of a plain-text outline (`I.`, `A.`,
`1.`, `a.`, `(1)`, `(a)` …) by threading a six-slot *order vector* through
the markers it finds. For each marker it decides whether the outline
continues, goes down or goes up, restarts at a roman numeral, or asks the
user. It then emits one replacement string per marker: a markdown bullet
such as `\t- #### [1A]`, or the marker's own text when the order did not
move.

This project models that core and proves properties of it:

| file | module | what it holds |
|---|---|---|
| `wrappers.dfy` | `Wrappers` | `Option`, `Result` and the errors the program raises: `KeyError`, `IndexError`, `ValueError`, and an unanswered prompt |
| `pytext.dfy` | `PyText` | the Python built-ins the core leans on: `str()` and `int()` of integers, `"\t" * n` and `str.upper` |
| `order.dfy` | `OrderVector` | the order vector, its active depth `pos`, the `Action` enum and `change_order` (an in-place update of an `array<int>`), and well-formedness |
| `renderer.dfy` | `Renderer` | `get_outline_formatted_strings`: the header, the bracketed body and the last unit, in full and compact mode |
| `numerals.dfy` | `Numerals` | `is_roman`, `roman_to_number` (a right-to-left loop) and `get_order_of_outline_formatted_numeral` |
| `resolver.dfy` | `Resolver` | `next_possibility`, `next_order` and the answer mapping of `get_order_advancement_from_user` |
| `sequencer.dfy` | `Sequencer` | the loop of `generate_replacement_list`, its specification as a walk over the markers, and a worked outline |

The markers come in as the strings the regular expression captured. The
user's answers come in as one line per marker, so the model does no I/O.

Each imperative operation is a method proved against a specification
function:

- `ChangeOrder` against `Apply`
- `GetFormattedStrings` against `Formatted` and `LastUnit`
- `RomanToNumber` against `RomanValue`
- `NextOrder` against `Resolve`
- `GenerateReplacementList` against `Replacements`

The lemmas state what the program promises about those functions.

Python's negative list indexing is modelled rather than excluded. When
`order[0]` is 0 the active depth is -1 and `order[-1]` is `order[5]`, and
the loop really reaches that vector: an unreadable first marker answered
with an empty line leaves `zero_order`. DOWN at depth 5 writes `order[6]`;
`next_order` builds that candidate before comparing anything, so the model
returns `IndexError` there.

## Model

| member | source | states |
|---|---|---|
| `PyText.IntToString` | outlineize.py:95 | `str(n)` is non-empty, starts with a minus sign exactly when `n < 0`, has only digits after its first character, and equals the decimal text of `n` for `n >= 0` |
| `PyText.NatToString` | outlineize.py:112 | the decimal text of `n` is made of digits, does not start with `0` when `n >= 1`, and has one digit exactly when `n < 10` and two exactly when `10 <= n < 100` |
| `PyText.DigitsRoundTrip` | outlineize.py:192 | `int(str(n)) == n` for every `n >= 0` |
| `PyText.Tabs` | outlineize.py:301 | `"\t" * n` is `n` tabs, and empty when `n <= 0` |
| `PyText.UpperChar` | outlineize.py:141 | `str.upper` maps `a`-`z` to `A`-`Z` (32 code points lower) and leaves every other character alone |
| `OrderVector.Depth` | outlineize.py:44 | `pos` lies in -1..5, every counter up to `pos` is non-zero, and the counter after it is zero |
| `OrderVector.ActiveDepth` | outlineize.py:44 | the generator loop returns the index before the first zero, or 5 when there is none |
| `OrderVector.ChangeOrder` | outlineize.py:40-80 | the new contents are `Apply(action, old contents)`; every action but RESET updates the caller's array and returns it; RESET leaves it alone and returns a fresh `[1, 0, 0, 0, 0, 0]` |
| `OrderVector.ActionExamples` | outlineize.py:23-28 | from `[2,1,3,1,0,0]` each action gives exactly the vector in its enum comment |
| `OrderVector.ContinueStep` | outlineize.py:45-47 | on a well-formed vector CONTINUE keeps it well-formed, keeps the depth, and adds one at `pos` and nowhere else |
| `OrderVector.DownStep` | outlineize.py:50-52 | DOWN keeps the vector well-formed, goes one deeper, sets `pos+1` to 1 and changes nothing else |
| `OrderVector.UpStep` | outlineize.py:53-59 | UP keeps the vector well-formed and goes up one level, adding one to the parent counter and keeping the counters above it; at depth 0 it gives `[1,0,0,0,0,0]` |
| `OrderVector.Up2Step` | outlineize.py:60-68 | UP2 goes up two levels, adding one two levels up; at depth 0 or 1 it gives `[1,0,0,0,0,0]` |
| `OrderVector.Up3Step` | outlineize.py:69-79 | UP3 goes up three levels, adding one three levels up; at depth 0, 1 or 2 it gives `[1,0,0,0,0,0]` |
| `OrderVector.ApplyKeepsWellFormed` | outlineize.py:40-80 | every action keeps a well-formed vector well-formed, moves its depth as `DepthAfter` says, and keeps the counters above the new depth |
| `OrderVector.UpThenDown` | outlineize.py:50-59 | UP then DOWN returns to the same depth with the parent counter advanced and the child counter restarted at 1 |
| `OrderVector.TopOnlyWellFormed` | outlineize.py:192 | a vector holding only a positive top-level counter is well-formed at depth 0 |
| `Renderer.GetFormattedStrings` | outlineize.py:83-123 | the `if pos > k` blocks build exactly `Formatted(order, full)` and `LastUnit(order, full)` |
| `Renderer.HeaderByDepth` | outlineize.py:98-102 | the prefix is `"### "` exactly at depth 0, `"#### "` exactly at depth 1, and empty at every other depth |
| `Renderer.BodyHasDepthPlusOneUnits` | outlineize.py:95-122 | the bracketed body is the concatenation of depth+1 units, the k-th being the unit for depth k |
| `Renderer.CompactIsPlain` | outlineize.py:104-106 | compact mode writes no `.`, `(` or `)` anywhere in the formatted numeral |
| `Renderer.LastUnitShape` | outlineize.py:95-122 | in full mode the last unit is `str(order[0])` without a `.` at depth 0 (and -1), ends in `.` at depths 1 to 3, and is parenthesised at depths 4 and 5 |
| `Renderer.UpperLetterCycle` | outlineize.py:109 | `chr(n % 26 + 64)` repeats every 26, gives `A`-`Y` for remainders 1 to 25, and gives `@` exactly for multiples of 26 |
| `Renderer.LowerLetterCycle` | outlineize.py:115 | `chr(n % 26 + 96)` repeats every 26, gives `a`-`y` for remainders 1 to 25, and gives `` ` `` exactly for multiples of 26 |
| `Renderer.DeepestUnitIgnoresLastCounter` | outlineize.py:120-122 | at depth 5 neither the last unit nor the formatted numeral depends on `order[5]`, because the unit reads `order[3]` |
| `Numerals.Without` | outlineize.py:257 | `str.replace(c, "")` keeps exactly the characters other than `c` |
| `Numerals.WithoutCounts` | outlineize.py:257 | `str.replace(c, "")` removes every occurrence of `c` and keeps each other character as often as it occurs |
| `Numerals.WithoutConcat` | outlineize.py:257 | `str.replace(c, "")` on a concatenation is the concatenation of the parts with `c` removed, so the kept characters stay in order |
| `Numerals.RomanToNumber` | outlineize.py:255-268 | the loop over the reversed symbols returns `RomanValue(roman)`: the right-to-left fold, or the `KeyError` of the rightmost symbol outside the table |
| `Numerals.FoldIsStandard` | outlineize.py:261-267 | the fold succeeds exactly when every symbol is I, V or X; it then gives the subtractive value (a symbol counts negatively exactly when the next one is worth more); a failure names a symbol of the text outside the table |
| `Numerals.FoldBounds` | outlineize.py:259-267 | the running number is never below `prev_value`, which is 0, 1, 5 or 10, and is at least 1 once a symbol was read |
| `Numerals.RomanValueRange` | outlineize.py:251-268 | `roman_to_number` never returns a negative number, and returns at least 1 exactly when `is_roman` holds |
| `Numerals.RomanErrors` | outlineize.py:257-262 | `roman_to_number` raises exactly when the text holds a character other than I, V, X and `.`, and the `KeyError` names such a character |
| `Numerals.RomanExamples` | outlineize.py:255-268 | `"III."` is 3, `"IV"` is 4 and `"IX"` is 9 |
| `Numerals.RomanEdgeExamples` | outlineize.py:255-268 | `"XIV"` is 14, `""` is 0, and `"XL"` raises `KeyError('L')` |
| `Numerals.IsRoman` | outlineize.py:251-252 | `is_roman` holds when the text holds an `I`, a `V` or an `X`; `RomanValueRange` states that, when no `KeyError` is raised, this is exactly when `roman_to_number` gives at least 1 |
| `Numerals.GetOrderOfNumeral` | outlineize.py:126-150 | `ValueError` is raised exactly when the first, third or fifth character is not a digit, and `""` gives `base_order`; `NumeralExamples`, `CountNumeral` and `CompactRoundTrip` state the vectors it reads |
| `Numerals.NumeralExamples` | outlineize.py:126-150 | `"1A1b3"` gives `[1,1,1,2,3,0]` and `""` gives `base_order`; `"12"` gives `[12,0,0,0,0,0]`; `"1."` reads the `.` as a letter (-18); `"A1"` raises `ValueError` |
| `Numerals.CountNumeral` | outlineize.py:132-139 | the text of any `n >= 0` parses without error with `n` at depth 0, and gives exactly `[n,0,0,0,0,0]` for `n < 100` |
| `Numerals.CompactRoundTrip` | outlineize.py:126-150 | parsing the compact body of a vector whose counters are single glyphs gives the vector back, except at depth 5, where `order[5]` comes back as `order[3]` |
| `Resolver.ReplyRoundTrip` | outlineize.py:237-248 | each offered answer has exactly one reply line that selects it (`""`, `c`, `d`, `u`, `u2`, `u3`), and every accepted line selects an offered answer, never RESET |
| `Resolver.NextPossibility` | outlineize.py:153-163 | changing a copy gives `Apply(action, order)` and the full-mode last unit of it; the caller's vector is a value and stays as it was |
| `Resolver.CurrentPossibilities` | outlineize.py:185-186 | the list comprehension yields the five candidates in order CONTINUE, DOWN, UP, UP2, UP3, each with its full-mode last unit |
| `Resolver.FirstMatch` | outlineize.py:188-190 | the index found is the first of the four checked candidates whose last unit equals the marker, or 4 when none does |
| `Resolver.GetOrderAdvancementFromUser` | outlineize.py:217-248 | the reply is mapped as `UserDecision` says: `""` keeps the previous order, `c`/`d`/`u`/`u2`/`u3` apply that action, and depth 5 raises `IndexError` |
| `Resolver.NextOrder` | outlineize.py:177-192 | the method returns `Resolve(order, marker, reply)`: the first matching candidate, else the roman restart, else the user's decision |
| `Resolver.ResolveAutoMatch` | outlineize.py:188-190 | the first of CONTINUE, DOWN, UP, UP2 whose last unit is the marker wins, whatever the reply |
| `Resolver.ResolveRoman` | outlineize.py:191-192 | with no candidate matching, a marker holding I, V or X is read as `get_order_of_outline_formatted_numeral(roman_to_number(marker))` |
| `Resolver.ResolveRomanRestart` | outlineize.py:191-192 | with no candidate matching and a roman value below 100, the result is `[n,0,0,0,0,0]` with `n >= 1`, well-formed at depth 0 |
| `Resolver.ResolveAsksUser` | outlineize.py:194-214 | only a marker that matches no candidate and holds no I, V or X reaches the prompt; UP3 is taken only when `u3` is typed, and an empty reply keeps the previous order |
| `Resolver.ResolveDeepest` | outlineize.py:185-186 | at depth 5 both `next_order` and the prompt raise `IndexError`, because DOWN writes `order[6]` |
| `Resolver.TopLevelNeverMatched` | outlineize.py:188-190 | a candidate at depth 0 never matches a marker ending in `.` or `)`, so such markers take the roman path |
| `Resolver.ResolveKeepsWellFormed` | outlineize.py:185-192 | resolution keeps a vector well-formed unless the marker's roman value is 100 or more |
| `Resolver.LargeRomanRestart` | outlineize.py:192 | `XXXXXXXXXXI.` is 101, whose text `"101"` is read as `[101,0,1,0,0,0]`, which is not well-formed |
| `Sequencer.Walk` | outlineize.py:276-308 | a successful walk over n markers has exactly n replacements |
| `Sequencer.WalkExtends` | outlineize.py:276-308 | a successful turn after a successful walk appends exactly its entry and takes its order and pos |
| `Sequencer.WalkFails` | outlineize.py:276-292 | a failing turn ends the walk with that turn's error |
| `Sequencer.WalkStopsAt` | outlineize.py:276-292 | once the walk fails, every longer walk fails with the same error |
| `Sequencer.WalkPrefix` | outlineize.py:276-308 | a successful walk passed through a successful walk over every shorter prefix, and its replacements extend that walk's replacements |
| `Sequencer.WalkEntry` | outlineize.py:276-308 | in a successful walk, entry k is what turn k returned on the state after k markers |
| `Sequencer.AdvanceKeepsConsistent` | outlineize.py:294-306 | a turn keeps `pos` consistent: `None` only while the order is `zero_order`, otherwise the depth of the current order |
| `Sequencer.RunConsistent` | outlineize.py:272-308 | every successful run over any prefix of the markers has a consistent `pos` |
| `Sequencer.FirstOrder` | outlineize.py:279-290 | the first marker's roman value goes to `order[0]`; if `roman_to_number` raises, an empty reply keeps `zero_order` and any other reply is parsed as a code |
| `Sequencer.SeedRoman` | outlineize.py:279-284 | a readable roman first marker starts the outline at depth 0: its value, at least 1, is the only counter and the vector is well-formed |
| `Sequencer.SeedUnreadable` | outlineize.py:282-308 | an unreadable first marker with an empty reply gives no error: the order stays `zero_order`, pos stays unset and the marker's own text is the replacement |
| `Sequencer.Replacement` | outlineize.py:294-308 | the entry and the new pos are `Record(...)`: the match text when the order did not move, otherwise the indented compact bullet, preceded by an empty deeper bullet when `pos > next_pos` |
| `Sequencer.Turn` | outlineize.py:277-308 | one pass of the loop body returns `Advance(...)`, the next order together with its entry and pos |
| `Sequencer.RunContinues` | outlineize.py:276-308 | after a successful run over i markers, turn i either ends the whole run with its error or extends it by its entry |
| `Sequencer.GenerateReplacementList` | outlineize.py:271-309 | the loop returns `Replacements(markers, replies)`, the walk of `Advance` over all markers, or the first error |
| `Sequencer.EntryOf` | outlineize.py:279-308 | entry k is the record of the move turn k made: the first-marker rule at k = 0 (from the start state), `next_order` after that, from a consistent state |
| `Sequencer.UnchangedKeepsAuthorText` | outlineize.py:294-295 | a marker whose order did not change keeps its match text, `"\n\n" + "\n" + marker + " " + "\n"` |
| `Sequencer.RecordOfChange` | outlineize.py:296-306 | for a changed order the entry is the bullet at the new depth, preceded by `"\t" + "\t"*depth + "- \n"` exactly when pos was deeper, and pos becomes the new depth |
| `Sequencer.ChangedIsBullet` | outlineize.py:296-308 | in a run, a marker whose order changed becomes `"\t"*depth + "- " + compact rendering`, preceded by an empty bullet one level deeper exactly when the new depth is shallower than that of the previously rewritten marker |
| `Sequencer.SkipKeepsAuthorText` | outlineize.py:237-238 | an empty reply at the prompt keeps the previous order, so that marker keeps the author's text |
| `Sequencer.AdvanceMoves` | outlineize.py:292-306 | a later turn whose order moved gives the bullet entry and the new depth as pos |
| `Sequencer.ExampleTurn0` | outlineize.py:279-308 | the first marker `I.` gives `[1,0,0,0,0,0]` and the entry `"\n\n- ### [1]\n"` |
| `Sequencer.ExampleTurn4` | outlineize.py:191-192 | after `1B1`, the marker `II.` matches no candidate, restarts at `[2,0,0,0,0,0]`, and writes an empty deeper bullet before `- ### [2]` |
| `Sequencer.ExampleOutline` | outlineize.py:271-309 | the outline `I.`, `A.`, `B.`, `1.`, `II.` with no prompts gives the bullets `[1]`, `[1A]`, `[1B]`, `[1B1]`, `[2]` with their indentation and headers |

## Left out

- File I/O and the module-level pipeline (reading and writing the outline, joining lines, collapsing blank lines, bold and header cosmetics) are not modelled: they are text plumbing around the core.
- `replace_expressions` (outlineize.py:312-323) is not modelled: it splices the replacements back into the text at the regular-expression matches, which the model does not have.
- The regular expressions (outlineize.py:8, 274) are not modelled. Markers are given as the captured strings, and the whole match is taken to be a newline, the marker and a space, as the pattern at outlineize.py:274 makes it.
- `cls`, every `print`, and the text shown at the prompt (outlineize.py:195-214, 220-235, 281-287) are left out because they are console output only. The same goes for `next_match` (outlineize.py:182), which only feeds the prompt text; it reads the current match rather than the next one.
- `input()` is a parameter: one reply line per marker. It is read only where the program would prompt. An unrecognised line gives `Err(NoAnswer(line))` where the program would show the prompt again, because a retry loop over an unbounded supply of lines adds nothing to what the model proves.
- `Numerals.GetOrderOfNumeral`: `int()` is modelled on ASCII digits only. Python's `int()` also accepts surrounding whitespace, a sign, underscores between digits and non-ASCII digits, and `str.upper` also upper-cases non-ASCII letters; neither is modelled.
- `Resolver.ResolveRomanRestart` covers roman values below 100 only. For 100 and more, the second character of the decimal text is a digit, so `int(s)` at outlineize.py:139 puts the whole value in `order[0]`; then the characters from the third one on are read again one by one into `order[2]` to `order[5]` (outlineize.py:142-149). `LargeRomanRestart` and `ResolveKeepsWellFormed` state what happens then.
- Integer widths: Python integers are unbounded, like Dafny's `int`, so no wrap-around is modelled.

Where the code does something a reader might not expect, the model follows the code:

- Letters are `chr(n % 26 + 64)` and `chr(n % 26 + 96)` (outlineize.py:109, 115), so a counter of 26 renders as `@` or `` ` ``.
- The depth-5 unit is commented `(a) (b)` at outlineize.py:121, but it reads `order[3]`, the counter of the depth-3 unit, and not `order[5]`.
- The prompt offers `[up2]` and `[up3]` (outlineize.py:233, 235), but the code accepts only `u2` and `u3` (outlineize.py:245, 247).
- An empty reply after an unreadable first marker leaves the vector copied from `zero_order` at outlineize.py:272, since the assignment at outlineize.py:290 runs only for a non-empty reply.
- A roman restart with a value of 100 or more does not give a well-formed vector (see `LargeRomanRestart`).
