# Eloquent JavaScript exercises, modelled in Dafny

This project models seven exercise solutions of the `karn09/eloquent`
repository and proves properties of them:

- **Table layout** (`ch6-exercise2.js`), in `TableLayout.dfy` with the string built-ins in `Strings.dfy`.
  - Text, right-aligned text and underlined cells report a minimum width and height, and draw themselves at a given size.
  - `rowHeights` and `colWidths` measure a grid.
  - `drawTable` joins the drawn blocks with spaces and newlines.
  - `dataTable` turns records into a header row and body rows.
  - The `StretchCell` of the exercise text is included but marked as unimplemented in the source.
- **Sequence iterators** (`ch6-exercise3.js`), in `Sequences.dfy`.
  - The classes `ArraySeq` and `RangeSeq` each have a counter that `next()` advances and `current()` reads.
  - `logFive` returns the elements it would print.
- **Linked lists** (`ch4-exercise3.js`), in `LinkedList.dfy`: `arrayToList`, `listToArray`, `prepend` and `nth`.
- **`every` and `some`** (`ch5-exercise4.js`), in `Predicates.dfy`.
- **Century grouping** (`ch5-exercise3.js`), in `Centuries.dfy`. It covers:
  - the centuries and ages of the people;
  - the de-duplicating reduce and the in-place reverse;
  - the variadic `zip`;
  - the loop of `ageGroupedByCentury`, which gathers the ages of each century.
- **Mother lookup** (`ch5-exercise2.js`), in `Mothers.dfy`: the `byName` dictionary, `hasKnownMother`, `difference` and the filter/map pipeline.
- **Vectors** (`ch6-exercise1.js`), in `Vectors.dfy`: `plus`, `minus` and the radicand of `length`.

`Ancestry.dfy` holds the person record shared by the two ancestry exercises. `Wrappers.dfy` holds `Option`.

The form of the model follows the form of the code:

- **Loops and in-place updates are methods**, each proved equal to a specification function or to a stated property:
  - `repeat`, the two `draw` loops, `arrayToList`, `listToArray`, `every`, `some`;
  - the de-duplicating reduce, `reverse` on an array, the `ageGroupedByCentury` loops and the `byName` `forEach`.
- **Objects whose fields change are classes**: `ArraySeq` and `RangeSeq`. Their methods are specified against the ghost `Remaining()`, the elements that later `next()` calls will step onto.
- **Map/reduce code is functions**, and the promised properties are proved as lemmas about them.

Behaviour of the code that the model follows:

- `drawTable` throws on a grid with no rows, or with an empty first row, because `rows[0].map` and `blocks[0].map` read `undefined` (ch6-exercise2.js:57, 78). So `DrawTable` requires a rectangular grid with at least one cell.
- Column widths are the longest line of each column, and columns are separated by exactly one space. The 2×2 grid of `"x"`, `"yy"` over `"z"`, `"w"` has column widths `[1, 2]` and draws as `"x yy\nz w "`, which `TableLayout.SmallGridExample` proves.
- `Array.prototype.join` writes `""` for an `undefined` entry. So a block with fewer lines than the first block of its row contributes `""` to `drawLine` (`LineAt`).
- The list examples of ch4-exercise3.js print a `rest` field in their comments (lines 38, 42), but the code builds the field `next`. The model follows the code.
- `Math.ceil(died / 100)` is modelled exactly for whole years as `(died + 99) / 100`, because Dafny's `/` rounds down for a positive divisor.

## Model

| member | source | states |
|---|---|---|
| Strings.Join | ch6-exercise2.js:71 | `Array.prototype.join`; specified by JoinLength, JoinSplit and SplitJoin |
| Strings.Split | ch6-exercise2.js:114 | `split("\n")` always returns at least one part, and no part contains the separator |
| Strings.JoinSplit | ch6-exercise2.js:114 | joining the parts of `split(sep)` with `sep` gives back the original string |
| Strings.SplitJoin | ch6-exercise2.js:80 | splitting a `join` of parts that contain no separator gives back exactly those parts |
| Strings.JoinLength | ch6-exercise2.js:68-72 | a join is as long as its parts together, plus one separator per gap |
| Strings.JoinFlatten | ch6-exercise2.js:78-83 | joining every row's lines, then joining the rows, with one separator, is one join over all the lines |
| TableLayout.MaxFrom0 | ch6-exercise2.js:127-129 | a `Math.max` reduce started at 0 is non-negative and bounds every element; a non-zero result is attained by some element |
| TableLayout.TextCell | ch6-exercise2.js:113-115 | the cell stores its text cut at newlines: no stored line holds a newline, and joining the lines with newlines gives the text back |
| TableLayout.RTextCell | ch6-exercise2.js:208-210 | the same storage as a TextCell, as a right-aligned cell |
| TableLayout.MinWidth | ch6-exercise2.js:126-191 | `minWidth()` of every cell kind is never negative; TextMeasures and StretchMeasures say which width it is |
| TableLayout.TextMeasures | ch6-exercise2.js:126-142 | minWidth bounds every stored line's length and is attained by one of them (or is 0); minHeight is the number of lines; RTextCell measures the same |
| TableLayout.MinHeight | ch6-exercise2.js:140-195 | a cell built by the constructors is at least one line high |
| TableLayout.StretchMeasures | ch6-exercise2.js:275-277 | a StretchCell is at least as wide and high as its inner cell and its given size, and is exactly one of the two |
| TableLayout.RepeatedChar | ch6-exercise2.js:95-100 | `repeat(c, n)` is `n` copies of `c`, and `""` when `n <= 0` |
| TableLayout.Repeat | ch6-exercise2.js:95-100 | the counting loop builds the repetition |
| TableLayout.Draw | ch6-exercise2.js:150-222 | `draw(width, height)` of every cell kind; specified by DrawHeight, DrawWidth, TextDrawHeight, TextDrawLine, RTextDrawLine and UnderlinedDraw |
| TableLayout.DrawHeight | ch6-exercise2.js:150-222 | every cell draws exactly `height` lines when `height` is at least its minHeight |
| TableLayout.TextDrawHeight | ch6-exercise2.js:150-222 | the two draw loops run exactly `height` times for any height: line `i` is stored line `i` padded (or a blank line), and stored lines from `height` on are cut off |
| TableLayout.DrawWidth | ch6-exercise2.js:150-162 | every drawn line is exactly `width` long when `width` is at least the cell's minWidth |
| TableLayout.TextDrawLine | ch6-exercise2.js:150-162 | line `i` is stored line `i` (or `""`) followed only by spaces, `max(width, length)` long, so an over-wide line is not truncated |
| TableLayout.RTextDrawLine | ch6-exercise2.js:215-222 | line `i` is spaces followed by stored line `i` (or `""`), `max(width, length)` long |
| TableLayout.UnderlinedDraw | ch6-exercise2.js:197-201 | an underlined cell draws its inner cell one line shorter, then one line of `width` dashes |
| TableLayout.DrawAvoidsNewline | ch6-exercise2.js:150-222 | no line a well-formed cell draws contains a newline |
| TableLayout.DrawTextLines | ch6-exercise2.js:150-162 | the push loop of `TextCell.draw` yields the Text drawing |
| TableLayout.DrawRTextLines | ch6-exercise2.js:215-222 | the push loop of `RTextCell.draw` yields the RText drawing |
| TableLayout.DrawCell | ch6-exercise2.js:197-201 | dispatch on the kind of cell (underlined cells delegating to their inner cell) yields the cell's drawing |
| TableLayout.RowHeight | ch6-exercise2.js:49-53 | a row's height bounds every cell's minHeight and is attained by one of them; an empty row gives 0 |
| TableLayout.RowHeights | ch6-exercise2.js:48-54 | one entry per row, each the row's height |
| TableLayout.ColWidth | ch6-exercise2.js:58-60 | column `i`'s width bounds every row's cell `i` minWidth and is attained by one of them |
| TableLayout.ColWidths | ch6-exercise2.js:56-62 | one entry per cell of the first row, each that column's width |
| TableLayout.DrawLine | ch6-exercise2.js:68-72 | `drawLine(blocks, lineNo)`: line `lineNo` of every block, `""` where a block has none, joined by spaces; its shape is stated by RowShape |
| TableLayout.DrawRow | ch6-exercise2.js:74-81 | `drawRow`: each cell drawn at its column width and the row height, the lines of the first block's count joined by newlines; its shape is stated by RowShape and RowAvoidsNewline |
| TableLayout.RowShape | ch6-exercise2.js:74-80 | a row whose cells fit draws `height` lines, each `sum(widths) + cells - 1` long |
| TableLayout.RowAvoidsNewline | ch6-exercise2.js:68-80 | no line of a row of well-formed cells contains a newline |
| TableLayout.RowLinesShape | ch6-exercise2.js:64-84 | in `drawTable`, row `r` contributes exactly `heights[r]` lines, each `sum(widths) + columns - 1` long |
| TableLayout.RenderRowsJoin | ch6-exercise2.js:83 | the table is the newline-join of each row's newline-joined lines |
| TableLayout.DrawTable | ch6-exercise2.js:64-84 | `drawTable`: rows drawn at the measured sizes, joined by newlines; its output is characterised by DrawTableLines and RowLinesShape |
| TableLayout.DrawTableLines | ch6-exercise2.js:64-84 | the `drawTable` output cut at newlines is exactly the rows' lines in order, with no blank separator and nothing merged |
| TableLayout.TwoByTwoWidths | ch6-exercise2.js:56-62 | a 2×2 grid of one-line cells has columns as wide as the longer line in each |
| TableLayout.TwoByTwoRendered | ch6-exercise2.js:64-84 | a 2×2 grid of one-line cells draws as its padded cells, one space between columns and a newline between rows |
| TableLayout.SmallGridExample | ch6-exercise2.js:64-84 | "x", "yy" over "z", "w" draws as `"x yy\nz w "` |
| TableLayout.NatToString | ch6-exercise2.js:242 | `String(n)` of a natural number is a digit string with no leading zero (only 0 starts with `0`), one digit exactly below 10, whose decimal value is `n` |
| TableLayout.IntToString | ch6-exercise2.js:242 | `String(n)` starts with `-` exactly for a negative `n`, then the digits of its magnitude, with no leading zero |
| TableLayout.Display | ch6-exercise2.js:242-244 | `String(value)`: IntToString for a number, the string itself, and `"undefined"` for a missing field; BodyCell states what the cells hold |
| TableLayout.BodyCell | ch6-exercise2.js:237-244 | a number gives a right-aligned cell, anything else a left-aligned one, each holding `String(value)` |
| TableLayout.HeaderRow | ch6-exercise2.js:228-230 | one underlined text cell per key |
| TableLayout.BodyRow | ch6-exercise2.js:236-245 | one body cell per key, from the record's field of that name |
| TableLayout.DataTable | ch6-exercise2.js:226-248 | one header row plus one row per record, each row with one cell per key of the first record |
| TableLayout.DataTableWellFormed | ch6-exercise2.js:226-248 | every cell of a data table can be drawn: it holds no newline inside a line |
| TableLayout.DataTableHeader | ch6-exercise2.js:228-230 | header cell `k` is an underlined text cell holding key `k` |
| TableLayout.FirstRecordComplete | ch6-exercise2.js:227-245 | when the keys are the first record's own properties, as `Object.keys` gives them, every cell of its body row shows its own field, not `undefined` |
| TableLayout.DataTableBody | ch6-exercise2.js:235-246 | body cell `k` of row `r` holds `String` of record `r-1`'s field named by key `k`, right-aligned exactly when that field is a number |
| TableLayout.TextCellExample | ch6-exercise2.js:150-162 | `TextCell("abc")` is 3 wide and 1 high, and draws at 5×1 as `"abc  "` |
| TableLayout.RTextCellExample | ch6-exercise2.js:255 | `RTextCell("5895")` draws at 6×1 as `"  5895"` |
| TableLayout.StretchCellExample | ch6-exercise2.js:294-300 | `StretchCell(TextCell("abc"), 1, 2)` is 3 wide and 2 high, and draws as `["abc", "   "]` |
| Sequences.ArraySeq.constructor | ch6-exercise3.js:39-44 | a fresh ArraySeq is at position -1, with the whole array remaining |
| Sequences.ArraySeq.Next | ch6-exercise3.js:54-63 | `next()` succeeds exactly when elements remain; success steps onto the first of them, and failure changes nothing and leaves none remaining (so every later call also fails) |
| Sequences.RangeSeq.constructor | ch6-exercise3.js:78-82 | the counter starts at `from - 1`, so `from, from+1, …, to` remain |
| Sequences.RangeSeq.Next | ch6-exercise3.js:93-100 | `next()` counts up while below `to`; success makes `current()` the next number of the range |
| Sequences.LogFiveArray | ch6-exercise3.js:25-33 | on an ArraySeq, `logFive` prints the first `min(5, n)` remaining elements in order, leaves the rest, and moves the position by exactly the number printed |
| Sequences.LogFiveRange | ch6-exercise3.js:25-33 | on a RangeSeq, `logFive` prints the first `min(5, n)` remaining numbers in order, leaves the rest, and moves the counter by exactly the number printed (not at all on a finished range) |
| Sequences.DrainArray | ch6-exercise3.js:39-70 | calling `next()` on a new ArraySeq until it fails, reading `current()` after each success, reads exactly the array in order, and the call after the last element is the first to fail |
| Sequences.DrainRange | ch6-exercise3.js:78-107 | the same on a new RangeSeq reads exactly `from, from + 1, …, to`, nothing when `from > to` |
| Sequences.LogFiveExamples | ch6-exercise3.js:113-121 | `[1, 2]` prints 1 and 2; the range 100 to 1000 prints 100 to 104 |
| LinkedList.Length | ch4-exercise3.js:14-20 | the node count is the number of values read back |
| LinkedList.ElementsInjective | ch4-exercise3.js:3-12 | two lists holding the same values in the same order are the same list |
| LinkedList.ArrayToList | ch4-exercise3.js:3-12 | the list holds the array's values in order, and `null` exactly for the empty array |
| LinkedList.ListToArray | ch4-exercise3.js:14-20 | the array holds one value per node, in node order |
| LinkedList.Prepend | ch4-exercise3.js:22-27 | the new list is the value followed by the untouched old list |
| LinkedList.Nth | ch4-exercise3.js:29-35 | `nth(list, n)` is value `n` of the list, for `0 <= n < length` |
| LinkedList.ListExamples | ch4-exercise3.js:37-44 | the results of the four example calls (with the field `next` the code builds, where the comments print `rest`) |
| Predicates.Every | ch5-exercise4.js:7-14 | true exactly when every element passes; a false answer stops at the first failing element, testing none after it |
| Predicates.Some | ch5-exercise4.js:22-29 | true exactly when some element passes; a true answer stops at the first passing element, testing none after it |
| Predicates.PredicateExamples | ch5-exercise4.js:31-38 | the four NaN examples give true, false, true, false |
| Centuries.Century | ch5-exercise3.js:18 | the century `c` is the one with `100(c-1) < died <= 100c` |
| Centuries.Centuries | ch5-exercise3.js:17-19 | one century per person, each the century of their death year |
| Centuries.Ages | ch5-exercise3.js:44-46 | one age per person: born plus age is died |
| Centuries.Distinct | ch5-exercise3.js:28-32 | the reduce keeps every value that occurs and nothing else, with no duplicates |
| Centuries.DistinctOrder | ch5-exercise3.js:28-32 | the kept values are in the order of their first occurrence |
| Centuries.FirstIndexPrefix | ch5-exercise3.js:30 | the first-occurrence index of a value does not move when elements are pushed after it |
| Centuries.GroupCenturies | ch5-exercise3.js:28-32 | the reduce's `indexOf`/`push` loop builds the de-duplicated list |
| Centuries.Reversed | ch5-exercise3.js:35 | the reading back to front that `reverse()` produces; it keeps the length, and ReversedTwice and ReversedSameElements state its properties |
| Centuries.ReverseInPlace | ch5-exercise3.js:35 | `reverse()` leaves the array reversed |
| Centuries.ReversedTwice | ch5-exercise3.js:35 | reversing twice gives the list back |
| Centuries.ReversedSameElements | ch5-exercise3.js:35 | reversing keeps every element, as often as before |
| Centuries.Shortest | ch5-exercise3.js:74-76 | the reduce picks one of the arguments, no longer than any other |
| Centuries.Zip | ch5-exercise3.js:72-81 | as many tuples as the shortest argument has elements, tuple `i` holding element `i` of each argument; `zip()` is `[]` |
| Centuries.Collect | ch5-exercise3.js:57-62 | the inner loop's `temp` for one century; specified by CollectMembers, CollectAppend and CollectPeople |
| Centuries.CollectMembers | ch5-exercise3.js:58-62 | a value is gathered for a century exactly when some grouping of that century carries it |
| Centuries.CollectAppend | ch5-exercise3.js:58-62 | gathering keeps grouping order: two runs of groupings gather as one run followed by the other |
| Centuries.CollectPeople | ch5-exercise3.js:58-62 | groupings built person by person gather the ages of the people who died in the century |
| Centuries.GroupingsOfPeople | ch5-exercise3.js:87 | with `groupings = zip(centuries, ages)`, a century gathers exactly the ages of the people who died in it, in data order |
| Centuries.AgeGroupedByCentury | ch5-exercise3.js:54-68 | the nested loops give a map keyed by exactly the grouped centuries, each sent to the ages gathered for it |
| Mothers.ByName | ch5-exercise2.js:27-29 | `byName` after the `forEach`; specified by ByNameKeys and ByNameLast |
| Mothers.ByNameKeys | ch5-exercise2.js:27-29 | the keys of `byName` are exactly the names seen |
| Mothers.ByNameLast | ch5-exercise2.js:27-29 | each name maps to the last person in the data carrying it |
| Mothers.BuildByName | ch5-exercise2.js:27-29 | the `forEach` fills `byName` with the dictionary described above |
| Mothers.HasKnownMother | ch5-exercise2.js:17-19 | `hasKnownMother(person)`: the person names a mother recorded in `byName`; KnownMotherInData ties it to the data |
| Mothers.KnownMotherInData | ch5-exercise2.js:17-19 | a person's mother is known exactly when the person names a mother and someone in the data carries that name |
| Mothers.Difference | ch5-exercise2.js:21-23 | the mother's birth year plus the difference is the person's birth year |
| Mothers.DifferenceInData | ch5-exercise2.js:21-23 | the difference is taken against the last person in the data carrying the mother's name |
| Mothers.KnownMothers | ch5-exercise2.js:31 | the filter keeps exactly the people whose mother is known |
| Mothers.KnownMothersAppend | ch5-exercise2.js:31 | the filter keeps data order |
| Mothers.Differences | ch5-exercise2.js:31 | one difference per kept person, in order, each against that person's mother |
| Mothers.MotherAgeDifferences | ch5-exercise2.js:31 | the averaged list has one entry per person with a known mother |
| Vectors.Vector.Plus | ch6-exercise1.js:23-25 | subtracting the added vector again gives the first vector back |
| Vectors.Vector.Minus | ch6-exercise1.js:26-28 | the difference plus the subtracted vector is the first vector, coordinate by coordinate |
| Vectors.Vector.LengthSquared | ch6-exercise1.js:30-35 | the radicand of `length` is never negative, and is 0 only for the zero vector |
| Vectors.MinusPlus | ch6-exercise1.js:23-28 | adding back a subtracted vector gives the first vector again |
| Vectors.PlusCommutes | ch6-exercise1.js:23-25 | the operands of `plus` can be swapped |
| Vectors.VectorExamples | ch6-exercise1.js:37-42 | `(1,2)+(2,3) = (3,5)` and `(1,2)-(2,3) = (-1,-1)`; the radicand for `(3,4)` is 25 |

## Left out

- Loading the data sets (`require('./mountains.js')`, `JSON.parse(require('./ancestry.js'))`) and every `console.log` are I/O. The data files are not part of this model. `logFive` returns what it would print.
- `average` and `toFixed` (ch5-exercise3.js:5-8, 64; ch5-exercise2.js:9-12, 31) are floating-point division and formatting.
- The `length` getter of `Vector` calls `Math.sqrt`. Only its radicand `x*x + y*y` is modelled (`Vectors.Vector.LengthSquared`).
- JavaScript numbers are doubles here modelled as integers. Years, ages, vector coordinates and table values are whole numbers, so fractional years and float rounding are not captured.
- TableLayout.Stretch: `StretchCell` has only empty method stubs and no constructor in the source, which throws at ch6-exercise2.js:281. The constructor is modelled from the exercise text and its expected output only.
- TableLayout.DrawTable: requires a non-empty grid whose rows all have as many cells as the first. A ragged grid is not modelled: a shorter row throws in `colWidths`, and a longer row draws its extra cells at an `undefined` width.
- TableLayout.Display: `String(value)` is modelled for integers and for values given by their string form. `typeof` is reduced to number versus anything else, and `Object.keys` order is an explicit key list in each record.
- Sequences.LogFiveArray: `logFive` takes any object with `next` and `current`. Without an interface type it is modelled once per iterator class.
- Sequences.RangeSeq.Current: returns the counter even before the first `next()`, at `from - 1`, as the source does. No `undefined` case exists there.
- Predicates.Every: the test is a pure total function. A test with side effects, or one that throws, is not modelled.
- Centuries.AgeGroupedByCentury: each century maps to the list of gathered ages, not to its formatted average. Each grouping must have a first and a second component, which `zip` of two lists guarantees. A shorter grouping, which would push `undefined`, is not modelled.
- Centuries.ReverseInPlace: is stated for an array on its own. The model does not chain it onto the list the reduce built.
- Mothers.HasKnownMother: a missing mother is `None`. The source looks up `byName[null]`, that is the key `"null"`, which would find a person named "null". That quirk is not modelled.
- String lengths: JavaScript's `.length` counts UTF-16 code units (ch6-exercise2.js:128, 154, 219), while the model counts characters. A character outside the Basic Multilingual Plane, such as an emoji, is 2 wide in the source and 1 wide in the model.
- Sequences.ArraySeq: the source keeps the caller's array by reference and reads it live (ch6-exercise3.js:43, 55, 69). The model keeps a snapshot in `items`, so a change to the array after construction, or aliasing between two sequences over one array, is not captured.
- Mothers.HasKnownMother: `byName = {}` inherits the keys of `Object.prototype` (ch5-exercise2.js:14, 18). A mother named `constructor` or `toString` counts as known in the source, and her `difference` is NaN. The model's dictionary holds only the people, so such a mother is unknown there.
- TableLayout.DataTable: requires at least one record, because `dataTable([])` throws when it reads `Object.keys(undefined)` (ch6-exercise2.js:227). The error is not modelled.
- TableLayout.Record: the keys list is not required to be the record's own property names, listed once each. `OwnKeys` states that property; `FirstRecordComplete` uses it.
- LinkedList.Nth: requires `0 <= n < length`. Outside that range the source reads `null.value` and throws (ch4-exercise3.js:31, 33). The error is not modelled.
- scratch.js is unfinished exploratory code and is not part of this model.
