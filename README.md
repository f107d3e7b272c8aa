# meal_calculate — a verified model of the menu extractor, the budget optimiser and the cafeteria list

meal_calculate recommends dishes from a university cafeteria menu. Their total price must come as
close as possible to a budget without exceeding it. This project models its core in Dafny and
proves what that core promises:

- **The menu extractor** (`MenuItem`, `MenuHTMLParser` in meal_calculator.py). It is an HTML
  tokenizer callback object.
  - A tag stack, a pending name and price, a capture mode ("name" or "price") and the emitted
    items are updated in place on start tags, end tags, text and character references.
  - A document is given as the sequence of callbacks the tokenizer makes for it.
  - The class `Menu.MenuHTMLParser` keeps the source's fields. Each handler is proved to move
    the fields exactly as a pure step function says (`OnStartTag`, `OnEndTag`, `OnData`,
    `OnCharRef`). The lemmas are stated over those functions.
- **The budget optimiser** (`best_combination`). It is a 0/1 subset-sum dynamic program over an
  array `best[0..budget]` of optional dish lists.
  - `Optimizer.BestCombination` keeps the array and the nested loops, including the downward
    scan.
  - It is proved against `MinCount`: the fewest dishes of a subsequence of the menu whose prices
    add up to a given total.
  - The result is the highest reachable total within the budget. It comes with a subsequence of
    the menu that reaches that total with the fewest dishes and no free dish.
- **The summary text** (`format_result`). It is a header line and one line per dish, joined by
  newlines.
  - Splitting the text at newlines gives those lines back.
- **The cafeteria list** (calculator/cafeterias.py; meal_calculate/calculator/cafeterias.py is a
  line-for-line copy, so one module serves both).
  - Entries are read from decoded JSON records.
  - There are seven built-in defaults.
  - The list is sorted by name with a stable sort.
  - Lookups by identifier return a cafeteria's name and its menu URL.
  - The module global `CAFETERIAS` is a parameter of the lookups.

Python's own string behaviour is written out in module `Text`: `str.isspace`/`strip`, the `in`
operator, `int()`, `str()` of an integer, `re.search(r"(\d+)")` and string ordering. Modules:
`Wrappers` (Option, Result), `Text`, `Menu`, `Optimizer`, `Report`, `Cafeterias`.

Two facts about the code decide the model's shape:

- `best_combination` scans the table downward (meal_calculator.py:162), so each listed dish is used
  at most once.
- calculator/views.py:55-56 passes `use_playwright` to `fetch_menu` and `limit_primary` to
  `best_combination`, and calculator/views.py:76 reads `item.category`. meal_calculator.py defines
  none of these, so the model has no such parameters or fields.

## Model

| member | source | states |
|---|---|---|
| Text.Strip | meal_calculator.py:101 | `str.strip()` removes exactly the whitespace at both ends. The result is a slice of the input, is empty iff the input is all whitespace, and leaves a stripped string alone |
| Text.ContainsIffOccurs | meal_calculator.py:67-70 | `"name" in cls` holds exactly when the word occurs at some position of the class value |
| Text.SearchDigits | meal_calculator.py:108 | `re.search(r"(\d+)")` finds the leftmost run of digits and extends it as far as it goes; no match iff the text has no digit |
| Text.IntToStringRoundTrip | meal_calculator.py:197-199 | a check of the `Text` model itself: its `int()` reads back what its `str()` writes, which the summary uses for totals and prices, for every integer |
| Text.ParseNatToString | meal_calculator.py:197-199 | a check of the `Text` model itself: the digits it writes for `n` are read back as `n` |
| Text.LessTotal | calculator/cafeterias.py:59 | Python string order is total: two different names are ordered one way or the other |
| Text.LessTransitive | calculator/cafeterias.py:59 | Python string order is transitive |
| Menu.AttrGet | meal_calculator.py:58 | `dict(attrs).get(key)`: absent iff no attribute has that name, otherwise the value of the last one |
| Menu.OnStartTag | meal_calculator.py:57-84 | the tag is pushed; `<li>` clears the pending name and price; a `div` whose class contains "name" selects name capture, otherwise one containing "price" selects price capture; other tags keep the capture mode; a non-empty `data-price` read by `int()` sets the price, and an unreadable one leaves it |
| Menu.DataPricePadding | meal_calculator.py:80-84 | a `data-price` padded with ASCII whitespace is read, while one padded with U+001C, which `int()` does not skip, is unreadable and sets no price |
| Menu.OnEndTag | meal_calculator.py:86-96 | the innermost tag is popped; `</li>` emits the pending item exactly when the name is non-empty and a price is set, then clears name and price; `</div>`, `</span>`, `</p>` end capture; nothing else changes |
| Menu.OnData | meal_calculator.py:98-113 | without capture, or for whitespace-only text, nothing changes; name capture appends the stripped text to the name with no separator; price capture replaces the price with the first digit run, if there is one |
| Menu.OnCharRef | meal_calculator.py:118-123 | a decimal or `x`-hexadecimal reference is handled as its one-character text; an unreadable number, or one `chr()` rejects, changes nothing |
| Menu.ExtractMenu | meal_calculator.py:138-143 | an extraction with no items is the "No menu items found" error, otherwise the items |
| Menu.RunKeepsEmitted | meal_calculator.py:125-126 | items are only appended: the items returned earlier stay, in emission order |
| Menu.NoCloseNoItem | meal_calculator.py:90-94 | without an `</li>` no item is emitted, so a pending item never closed is never returned |
| Menu.EmittedNamesClean | meal_calculator.py:91-106 | every emitted item's name is non-empty and has no surrounding whitespace |
| Menu.RunAppend | meal_calculator.py:139 | feeding a document in two parts gives the same state as feeding it at once |
| Menu.ListEntryParses | meal_calculator.py:33-39 | the documented entry shape (an `li` holding a name `div` then a price `div`) yields exactly one item: the stripped name, priced by the first number of the price text |
| Menu.SampleEntryParses | meal_calculator.py:33-39 | the documented sample with 唐揚げ定食 and 500円 yields the item (唐揚げ定食, 500) |
| Menu.MenuHTMLParser.constructor | meal_calculator.py:49-55 | a new parser has nothing open, nothing pending and nothing emitted |
| Menu.MenuHTMLParser.HandleStartTag | meal_calculator.py:57-84 | updates the fields as `OnStartTag` says |
| Menu.MenuHTMLParser.HandleEndTag | meal_calculator.py:86-96 | updates the fields as `OnEndTag` says |
| Menu.MenuHTMLParser.HandleData | meal_calculator.py:98-113 | updates the fields as `OnData` says |
| Menu.MenuHTMLParser.HandleCharRef | meal_calculator.py:118-123 | updates the fields as `OnCharRef` says |
| Menu.MenuHTMLParser.GetItems | meal_calculator.py:125-126 | returns the emitted items |
| Menu.MenuHTMLParser.Feed | meal_calculator.py:139 | one handler call per callback, in order: the fields end as `Run` says |
| Optimizer.MinCountIsMinimal | meal_calculator.py:147-152 | every subsequence of the menu reaching a total has at least `MinCount` dishes, so `MinCount` is defined for every reachable total |
| Optimizer.MinCountAttained | meal_calculator.py:149-150 | some subsequence reaches the total with exactly `MinCount` dishes |
| Optimizer.MinCountZero | meal_calculator.py:159 | a total of zero is always reached by the empty choice and by nothing shorter |
| Optimizer.MinCountNegative | meal_calculator.py:162 | with non-negative prices no choice reaches a negative total |
| Optimizer.SubseqMultiset | meal_calculator.py:161-162 | a choice uses each listed dish at most as often as it is listed |
| Optimizer.RelaxFilled | meal_calculator.py:163-170 | one relaxation, replacing a cell only with a strictly shorter list, keeps the cell the fewest-dish choice for its total once the next dish is added |
| Optimizer.BelowPriceFilled | meal_calculator.py:162 | cells below a dish's price, which the scan skips, are already up to date for it |
| Optimizer.AddDish | meal_calculator.py:161-170 | one pass of the outer loop, the downward scan offering a dish to every cell, turns a table that is up to date with the dishes before it into one up to date with that dish too |
| Optimizer.BestCombination | meal_calculator.py:146-177 | a negative budget is the ValueError; otherwise the total is the highest total within the budget that any choice reaches; the combination is a subsequence of the menu that adds up to it, with no more dishes than any other choice reaching it and no free dish; a total of 0 comes with no dishes |
| Report.ItemWord | meal_calculator.py:197 | the header says "item" exactly when there is one dish, "items" otherwise |
| Report.FormatResult | meal_calculator.py:196-200 | the summary starts with its header and does not end in a newline |
| Report.FormatResultLines | meal_calculator.py:196-200 | split at newlines, the summary is the header followed by one `- name: price円` line per dish, in order, provided no name holds a newline |
| Report.SplitJoin | meal_calculator.py:200 | splitting joined lines at newlines gives the lines back when none holds a newline |
| Cafeterias.MenuUrl | calculator/cafeterias.py:30-32 | a menu URL is the base URL followed by the identifier |
| Cafeterias.MenuUrlInjective | calculator/cafeterias.py:11 | different identifiers give different menu URLs |
| Cafeterias.OrText | calculator/cafeterias.py:44-45 | `str(a or b or "")` is the text of the first truthy value, or "" when none is |
| Cafeterias.EntryCafeteria | calculator/cafeterias.py:44-47 | an entry is kept exactly when its stripped identifier ("id", else "identifier") and stripped name are both non-empty |
| Cafeterias.LoadFromFile | calculator/cafeterias.py:35-49 | a missing file, or one that is not valid JSON, gives no cafeterias; otherwise the kept entries, in file order |
| Cafeterias.FilteredClean | meal_calculate/calculator/cafeterias.py:44-48 | every cafeteria read from the file has a non-empty, stripped identifier and name |
| Cafeterias.FilteredAppend | calculator/cafeterias.py:43-48 | entries are filtered one by one: the cafeterias of a prefix of the file come first, in order |
| Cafeterias.FilteredSingle | calculator/cafeterias.py:46-48 | a single entry yields its cafeteria when it is kept and nothing otherwise |
| Cafeterias.BuildDefault | meal_calculate/calculator/cafeterias.py:52-53 | exactly the seven `DEFAULT_CAFETERIAS` entries, in declaration order |
| Cafeterias.NameLeTransitive | calculator/cafeterias.py:59 | ordering by name is transitive |
| Cafeterias.InsertSorted | calculator/cafeterias.py:59 | inserting into a list sorted by name keeps it sorted |
| Cafeterias.InsertWithName | calculator/cafeterias.py:59 | an inserted entry lands before the later entries of equal name |
| Cafeterias.SortByName | calculator/cafeterias.py:59 | sorting keeps exactly the same entries |
| Cafeterias.SortByNameSorted | meal_calculate/calculator/cafeterias.py:56-60 | the sorted list is non-decreasing by name |
| Cafeterias.SortByNameStable | calculator/cafeterias.py:59-60 | the sort is stable: entries sharing a name keep their relative order |
| Cafeterias.LoadCafeterias | calculator/cafeterias.py:56-60 | the file's cafeterias sorted by name, or the defaults sorted by name when the file yields none; never empty; a sorted permutation of its source |
| Cafeterias.CafeteriaChoices | calculator/cafeterias.py:66-67 | one (identifier, name) pair per cafeteria, same length and order |
| Cafeterias.FindFirst | calculator/cafeterias.py:71-72 | the position of the first cafeteria with the identifier, none iff no cafeteria has it |
| Cafeterias.CafeteriaName | calculator/cafeterias.py:70-74 | the name of the first cafeteria with the identifier, or the identifier itself when none has it |
| Cafeterias.CafeteriaUrl | meal_calculate/calculator/cafeterias.py:77-81 | always the base URL followed by the identifier, whether or not the list holds it |

## Left out

- Network access and charset decoding in `fetch_menu` (meal_calculator.py:129-136) are I/O. Its last step is `Menu.ExtractMenu`.
- `parse_args`, `main` and JSON printing (meal_calculator.py:180-222) are command-line and stdout plumbing.
- Tokenizing HTML is done by the standard library's `html.parser`. A document is modelled as the callbacks the tokenizer makes.
- `handle_entityref` (meal_calculator.py:115-116) calls `html.unescape` and is not modelled. With the parser's default settings, neither it nor `handle_charref` is called in practice.
- Text.PyInt accepts only ASCII digits after optional padding and one sign. Python's `int()` also accepts underscores between digits and non-ASCII decimal digits. The padding it skips is modelled exactly (`Text.IsIntSpace`): ASCII space and `\t` to `\r`, and non-ASCII whitespace, but not U+001C to U+001F.
- Text.SearchDigits matches ASCII digits only, where Python's `\d` also matches other Unicode decimal digits.
- Menu.CharRefCode reads hexadecimal references strictly as hex digits. `int(..., 16)` also accepts a sign, surrounding whitespace, underscores and a `0x` prefix.
- Menu.OnCharRef ignores references to surrogate code points, which a Dafny character cannot hold; Python would pass them on as text. Codes below 0 or above 0x10FFFF make `chr()` raise ValueError, which the source catches, and the model ignores them too. Codes beyond the range of a C `int` make Python raise OverflowError instead, which the source does not catch; the model ignores those as well.
- Menu.OnStartTag always sets the price from a `data-price` made of digits. CPython's `int()` raises ValueError on a digit string longer than its integer-conversion limit (4300 digits by default), and the source then keeps the old price. The model has no such limit.
- Menu.OnData always sets the price from the first digit run in price capture. On a run longer than CPython's integer-conversion limit, the source's `int()` raises ValueError and the old price is kept. The model has no such limit.
- Menu.OnStartTag requires a `div`'s class attribute to carry a value. On a bare `class`, `"name" in None` raises TypeError.
- The source tests `"menu"` together with `"price"` or `"name"` (meal_calculator.py:71-74). That can never succeed after the two tests before it fail. The method keeps those branches as unreachable; the pure function omits them.
- Optimizer.BestCombination requires non-negative prices. A negative price, which a `data-price` of "-5" produces, makes the source index past the end of `best` and raise IndexError. That crash is not modelled.
- Optimizer.BestCombination does not model the final `return 0, []` (meal_calculator.py:177). It is unreachable, because `best[0]` is always filled.
- Optimizer.BestCombination states the minimality of the returned combination but not which of several equally short combinations it is. That one is the first the loops reach, and the method computes it exactly as the source does.
- JSON floats, arrays and objects as entry values, and a top-level JSON value that is not a list of objects, are not modelled. Values are null, booleans, integers and strings.
- Reading and decoding `cafeterias.json` (calculator/cafeterias.py:36-41) is file I/O. The decoded records, or `None` for a missing file or one that is not valid JSON, are a parameter. A file that is not valid UTF-8 makes `read_text` raise UnicodeDecodeError, which the source does not catch; that crash is not modelled.
- The module global `CAFETERIAS` (calculator/cafeterias.py:63) is passed to the lookups as a parameter.
- calculator/views.py, forms.py, urls.py, apps.py, meal_project/, manage.py and the Playwright scraper in calculator/management/commands/update_cafeterias.py are Django glue, configuration and browser I/O. They are not part of this model.
