# Particle Physics Calculator: a Dafny model of `app.js`

This project models the core of the calculator's browser script `app.js`:

- turning the static tables into numeric ones: `parseConstants`, `parseMasses_p`, `parseMasses` and `mergeDict`;
- resolving the list variables: `parseLists`;
- the namespace expressions are evaluated in: `getExecutionContext`, with its own `sum`, `product` and `fact`;
- the session state and its two state-changing operations: `calculate` and `addToHistory`, set up by `init`;
- the text arithmetic of the keypad: `insertTextAtCursor`, `backSpace` and `shiftCursor`.

The model has seven modules, one file each:

| file | module | models |
|---|---|---|
| `results.dfy` | `Results` | `Option` and `Result` |
| `numbers.dfy` | `Numbers` | JavaScript numbers as the calculator observes them: finite, NaN, +Infinity or -Infinity, with `+` and `*` |
| `tables.dfy` | `Tables` | parsing the constants and masses, and flattening the mass categories |
| `lists.dfy` | `Lists` | list resolution and its two errors |
| `context.dfy` | `Context` | the layered namespace, `sum`, `product` and `fact` |
| `editing.dfy` | `Editing` | the new input value and cursor position of the keypad operations |
| `calculator.dfy` | `Calculator` | trimming and rewriting the input, the history, one `calculate` step as a function, and the `Session` class |

The module-level variables of `app.js` become the fields of `Calculator.Session`:

- `parsedConstants`
- `parsedMasses_type`
- `parsedMasses`
- `parsedListVariables`
- `prevResult`
- `history_list`
- the result display
- the input's red error border

`Init`, `AddToHistory` and `Calculate` change these fields in place. `Calculate` is proved to leave exactly the state that the pure function `Calculator.Step` computes. The properties of a step are stated on `Step` and on its helpers.

JavaScript objects are modelled in two ways:

- An object whose enumeration order matters (the mass categories, the list variables) is its sequence of entries.
- An object that is only looked up is a `map`.

Two host services are parameters, and a third is left out:

- `parseFloat` is a function parameter.
- The expression evaluator (`new Function(...)`) is an oracle parameter. It receives the namespace and the rewritten text, and returns a value or throws.
- Number formatting (`toPrecision`, `String(number)`) is not modelled.

Three behaviours of the code are worth noting:

- A list item is accepted when its constant or mass value is a number that is not NaN (app.js:65, app.js:74). An infinite constant is therefore accepted in a list.
- `parseConstants` (app.js:19-23) reports nothing for an unparseable value, which silently becomes NaN. Only `parseMasses_p` warns (app.js:29-31). Its warnings are modelled as the returned key list `warned`.
- `parseLists` (app.js:54) is given the constants only. It reads the flat mass table from the module variable `parsedMasses`, which `init` assigned just before (app.js:602). In the model that table is an explicit parameter.

## Model

| member | source | states |
|---|---|---|
| Numbers.Add | app.js:94 | JavaScript `+` on numbers: NaN exactly when an operand is NaN or the infinities have opposite signs; +Infinity exactly when one operand is +Infinity and the other is neither NaN nor -Infinity; -Infinity likewise with the signs swapped; the real sum for finite operands |
| Numbers.Mul | app.js:98 | JavaScript `*` on numbers: NaN exactly when an operand is NaN or zero meets an infinity; the real product for finite operands; an infinite operand that yields no NaN yields an infinity; an infinite product is +Infinity exactly when the operands have the same sign |
| Tables.ParseConstants | app.js:19-23 | the parsed table has exactly the raw keys, each mapped to `parseFloat` of its raw value; an unparseable value is kept (as NaN) and not reported |
| Tables.ParseConstantsOfSpread | app.js:600 | parsing `{...CONSTANTS, ...DEP_CONSTANTS}` equals parsing each table and letting the derived constants override the raw ones |
| Tables.Assigned | app.js:47-48 | the object built by assigning entries one after another into a fresh object; its keys and values are stated by `Tables.AssignedKeys` and `Tables.AssignedLastWins` |
| Tables.AssignedKeys | app.js:47-48 | assigning entries one by one into a fresh object defines exactly the keys that occur in them |
| Tables.AssignedLastWins | app.js:47-48 | when a key is assigned several times, the last assignment decides its value |
| Tables.ParsedEntries | app.js:27-28 | a parsed category has the same length and keys as the raw one, in the same order, each value passed through `parseFloat` |
| Tables.NaNKeys | app.js:29-31 | a key is warned about exactly when its parsed value is NaN |
| Tables.ParseMassCategory | app.js:25-34 | `parseMasses_p`: the loop yields the category with every value parsed, in order, and warns for exactly the keys whose value is NaN |
| Tables.ParsedCategories | app.js:37-39 | every category is kept, in order, under its own name, with its entries parsed |
| Tables.ParseMasses | app.js:35-42 | `parseMasses`: the loop parses every category, and a key is warned about exactly when some category holds it with a NaN value |
| Tables.Merged | app.js:44-51 | the flat table `mergeDict` returns: each category's entries assigned on top of those of the categories before it; stated by the four lemmas below |
| Tables.MergeDict | app.js:44-51 | `mergeDict`: the nested loops build the flat table of all categories' entries assigned in category order (`Tables.Merged`) |
| Tables.MergedKeys | app.js:44-51 | the flat table's keys are exactly the union of the categories' keys |
| Tables.MergedLaterCategoryWins | app.js:46-49 | a key defined in several categories takes its value from the last category that defines it |
| Tables.MergedLastDefinitionWins | app.js:44-51 | an entry with no later definition of its key, in its own category or in a later one, supplies that key's value in the flat table |
| Tables.FlatMassKeys | app.js:601-602 | the flat mass table built by `init` has exactly the keys of the raw mass categories, whatever `parseFloat` returns |
| Lists.MassKey | app.js:56 | a match of `^m\(([^)]+)\)$` gives the key `k` with the name being `m(k)`, `k` non-empty and free of `)` |
| Lists.MassKeyOfCall | app.js:56 | conversely, `m(k)` matches with key `k` exactly when `k` is non-empty and holds no `)`; otherwise it does not match |
| Lists.ResolveItem | app.js:61-82 | a usable constant (a number, not NaN) wins; else an `m(key)` name needs a usable mass, failing with the missing-mass error for the list and key; else the item fails as neither constant nor mass; a success is never NaN |
| Lists.ResolveItems | app.js:61-82 | one list's items resolved in order, or the error of the first failing item; stated by `Lists.ResolveItemsOk`, `Lists.ResolveItemsValues` and `Lists.ResolveItemsFirstError` |
| Lists.ResolveLists | app.js:58-85 | the table `parseLists` returns, or the error of the first failing list; stated by `Lists.ResolveListsOk`, `Lists.ResolveListsTable` and `Lists.ResolveListsFirstError` |
| Lists.ParseLists | app.js:54-86 | the loops over the lists and their items return the table, or the error of the first failing item, that `Lists.ResolveLists` defines |
| Lists.ResolveItemsErrPropagates | app.js:61-82 | once an item of a list fails, the whole list fails with that item's error |
| Lists.ResolveListsErrPropagates | app.js:58-85 | once a list fails, the whole table fails with that list's error |
| Lists.ResolveItemsOk | app.js:61-82 | a list resolves exactly when each of its items does |
| Lists.ResolveItemsValues | app.js:61-82 | a resolved list has the same length as its names, and each position holds the number that name resolves to |
| Lists.ResolveItemsFirstError | app.js:61-82 | a failing list fails with the error of its first failing item, all earlier items resolving |
| Lists.ResolveListsOk | app.js:58-85 | the table resolves exactly when every array-valued list resolves |
| Lists.ResolveListsTable | app.js:58-85 | a resolved table's keys are exactly the array-valued list names; values that are not arrays are skipped |
| Lists.ResolveListsFirstError | app.js:58-85 | a failing table fails with the error of the first array-valued list that fails, all earlier ones resolving |
| Lists.ParsedListItems | app.js:60-82 | each array-valued list appears in the table with one number per item, in item order, each the number its name resolves to |
| Lists.MassItemNeedsMasses | app.js:70-77 | with an empty flat mass table, any list holding an `m(key)` item that is not also a usable constant makes `parseLists` fail |
| Context.StandardMath | app.js:102-126 | the `standardMath` layer: `Math`, the trigonometric, logarithmic and other built-ins (the `arc...` names bound to `asin`, `acos` and `atan`), `PI`, `pi` and `π` bound to pi, `E` bound to e, and `fact` |
| Context.Aggregates | app.js:91-100 | the `customAggregates` layer: `sum` and `product` |
| Context.ExecutionContext | app.js:90-135 | `getExecutionContext`: the spread of the five layers, later layers overriding earlier ones; its lookups are stated by `Context.ContextLookup` and `Context.ContextNames` |
| Context.Override | app.js:128-134 | the object spread `{...lower, ...upper}` has both layers' keys, and a name takes the upper layer's value when it has one, else the lower one's |
| Context.StackedLookup | app.js:128-134 | looking a name up in five stacked spreads finds the topmost layer that has it |
| Context.ContextLookup | app.js:128-134 | a name in the namespace is the list of that name if there is one; else the constant; else the custom function; else `sum`/`product`; else the math built-in; else absent |
| Context.ContextNames | app.js:102-134 | a name is in the namespace exactly when it is a list, a constant, a custom function, `sum`/`product`, or one of the math built-ins |
| Context.ConstantsShadowFunctions | app.js:128-134 | a constant that is not also a list is seen as that number, shadowing any function of the same name |
| Context.Apply | app.js:94 | `func` applied element by element, keeping length and order |
| Context.AddAll | app.js:94 | `reduce((acc, x) => acc + func(x), 0)`: the left fold of `+` from 0; stated by `Context.AddAllFinite` and `Context.AddAllNaN` |
| Context.MulAll | app.js:98 | `reduce((acc, x) => acc * x, 1)`: the left fold of `*` from 1; stated by `Context.MulAllFinite` and `Context.MulAllNaN` |
| Context.Sum | app.js:92-95 | `sum` throws "requires a list variable" exactly when its argument is not an array; the sum of an empty array is 0 |
| Context.SumOf | app.js:92 | `sum(arr)` with the default `func = x => x` |
| Context.SumOfFinite | app.js:92-95 | `sum(arr)` over an array of finite numbers is their arithmetic sum: `sum([a, b, c]) == a + b + c` |
| Context.Product | app.js:96-99 | `product` throws "requires a list variable" exactly when its argument is not an array; the product of an empty array is 1 |
| Context.AddAllFinite | app.js:94 | over finite numbers the `reduce` from 0 is the arithmetic sum of the elements |
| Context.MulAllFinite | app.js:98 | over finite numbers the `reduce` from 1 is the arithmetic product of the elements |
| Context.AddAllNaN | app.js:94 | a single NaN element makes the sum NaN |
| Context.MulAllNaN | app.js:98 | a single NaN element makes the product NaN |
| Context.SumFinite | app.js:92-95 | `sum(arr, func)` over an array whose mapped values are all finite is the arithmetic sum of the mapped values |
| Context.ProductUpTo | app.js:118-122 | the product `2 * 3 * ... * k` is at least 1 |
| Context.ProductUpToIsFactorial | app.js:118-122 | for a natural number `k` that product is the factorial `k!` |
| Context.FactValue | app.js:118-122 | what `fact(n)` returns: the product 2 * 3 * ... * floor(n), which is 1 for NaN, -Infinity and every n below 2 |
| Context.FactValueOfReal | app.js:118-122 | `fact(x)` depends only on the integer part of `x`, and is 1 for every `x` below 2 |
| Context.Fact | app.js:118-122 | the loop `for (i = 2; i <= n; i++) result *= i` yields the product of 2 up to `n`, 1 for NaN, -Infinity and every `n < 2` |
| Editing.Substring | app.js:326-328 | `substring` with in-range bounds is the slice between them, in either order |
| Editing.InsertAtCursor | app.js:319-341 | on a valid selection the new value is the text before the selection, the inserted text and the text after it, its length adjusted accordingly; the cursor moves by the text's length, one less when it ends in `()` and parentheses are taken in |
| Editing.InsertedTextInPlace | app.js:326-335 | the inserted text sits at the old selection start; the text before and after the selection is kept; the new cursor lies within the new value |
| Editing.CallCursorBetweenParentheses | app.js:335-341 | inserting a call such as `sin()` puts the cursor between its parentheses |
| Editing.BackSpace | app.js:447-467 | at position 0 nothing changes and the cursor goes to 0, even with a selection; a collapsed cursor deletes the character before it and steps back; a selection is deleted and the cursor stays at its start |
| Editing.BackSpaceUndoesInsert | app.js:459-464 | typing one character at a collapsed cursor and then pressing backspace restores the value and the cursor |
| Editing.BackSpaceSelectionIsEmptyInsert | app.js:465-466 | deleting a selection not at the start equals inserting the empty text over it |
| Editing.ShiftCursor | app.js:378-389 | a collapsed cursor moves by `amount`; a selection collapses to its end when `amount >= 0` and to its start otherwise |
| Calculator.IsSpace | app.js:550 | the characters `trim` removes: the ECMAScript white space and line terminators |
| Calculator.TrimStart | app.js:550 | strips exactly the leading white space: the result is a suffix, starts with a non-space, and everything removed is white space |
| Calculator.TrimEnd | app.js:550 | strips exactly the trailing white space: the result is a prefix, ends with a non-space, and everything removed is white space |
| Calculator.Trim | app.js:550 | a non-empty trimmed text neither starts nor ends with white space |
| Calculator.BlankIffAllSpace | app.js:550-553 | the input counts as blank exactly when every character is white space |
| Calculator.ReplaceAll | app.js:558 | after replacing a character by a text free of it, the character no longer occurs; no character other than the input's and the replacement's appears |
| Calculator.Rewrite | app.js:558 | the prepared expression contains neither `^` nor `%` |
| Calculator.RewriteExpandsEachCharacter | app.js:558 | the two replacement passes act as one character-by-character rewrite: `^` to `**`, `%` to `*0.01`, everything else kept |
| Calculator.RewriteKeepsPlainText | app.js:558 | an expression with neither `^` nor `%` reaches the evaluator unchanged |
| Calculator.FirstMatch | app.js:505 | `findIndex`: the first entry with the text, or -1 exactly when none has it |
| Calculator.FindIndex | app.js:505 | the search loop returns the index `Calculator.FirstMatch` defines |
| Calculator.Recorded | app.js:503-510 | after `addToHistory` the last entry is the new expression with its result |
| Calculator.RecordedLength | app.js:503-510 | the history grows by one exactly when no entry had that text, and keeps its length otherwise |
| Calculator.RecordedUnique | app.js:503-510 | recording keeps the entries' texts pairwise distinct |
| Calculator.RecordedKeepsOrder | app.js:503-510 | with distinct texts, recording removes the old entry for the text and appends the new one; every other entry keeps its relative order |
| Calculator.FiniteResult | app.js:568-570 | a result is accepted exactly when it is a number that is neither NaN nor an infinity; everything else, a throw included, is rejected |
| Calculator.Step | app.js:544-583 | a blank input only shows 0; only an accepted result changes the history and the previous result, and then the display shows it, the error mark is cleared and the history is recorded; every rejection shows 'Error' and marks the input, changing nothing else; a non-blank input with an accepted result `x` records the untrimmed text with `x` in the history, sets the previous result to `x`, shows `x` and clears the error mark; texts stay distinct |
| Calculator.Session.Init | app.js:597-635 | the session's tables are the parsed constants (derived overriding raw), the parsed categories and their merge; with resolvable lists the list table is set and the display shows 0; otherwise the list table is empty and 'INIT ERROR' is shown; history empty |
| Calculator.Session.AddToHistory | app.js:503-510 | the history becomes `Calculator.Recorded` of the old one; texts stay distinct |
| Calculator.Session.Calculate | app.js:544-583 | the new session state is the `Calculator.Step` of the old one, with the namespace built from the session's tables; texts stay distinct |

## Left out

- The DOM: element lookups, the result text, the history buttons, focus handling, `setTimeout`, `renderVariables`, `saveFocus`, `emptyInput`, `setInput`, `disableDiv`, `enableDiv`, `handleKey` and `window.app`. Only their effect on the modelled state is kept, as the display value and the error mark.
- The expression evaluator (`new Function`) is host code. It is an oracle parameter of `Calculate` and `Step`, so an expression's meaning is not modelled.
- Floating point: numbers are exact reals with NaN and the infinities. Rounding, overflow to an infinity and signed zero are not modelled. This affects `Numbers.Add`, `Numbers.Mul`, `sum`, `product` and `fact`.
- The `sin`, `cos` and `tan` wrappers (`toFixed(15)` rounding) and the other `Math` functions are uninterpreted built-in entries of the namespace. Their values are not modelled.
- `toPrecision(10)` formatting of the display, and `insertResult`, which formats the previous result with `String(number)`: number formatting is host code. The display keeps the exact value.
- Calculator.Session.Calculate: in the source the evaluated expression receives the live list arrays of `parsedListVariables` as argument values (app.js:556-566) and runs in global scope. It can therefore change a list in place (`L.reverse()`, `L.pop()`), even when its result is then rejected, and it can create or change globals that later expressions read (`x = 5`). The model's evaluator is a pure function of the namespace and the text, so `Calculate` leaves `lists` unchanged and a rejection changes nothing but the display and the error mark.
- Context.Sum / Context.Product: the model's `func` is a total function from numbers to numbers and an array holds only numbers. The source takes whatever the expression passes (app.js:92-99). Several cases fall outside the model:
  - `sum(L, 5)` throws a TypeError for a non-empty `L` but returns 0 for an empty one.
  - A `func` that throws makes `sum` throw.
  - A `func` returning a string turns `acc + func(x)` into string concatenation.
  - An array literal typed with the `[` and `]` keys can hold non-numbers: `product([2, "3"])` is 6 by coercion, and `sum([1, "2"])` is the string "12".

  `Sum` and `Product` fail exactly on a non-array only within the modelled domain.
- Context.Fact: requires that the argument is not +Infinity, because the source loop never ends for that argument. The source loop also never ends for a finite `n` of at least 2^53, because from `i == 2^53` on, `i++` no longer changes the double `i`. The model's counter is an unbounded integer, so there it terminates and returns the product.
- `customFunctions`, `setMassesData` and the expression-level `m("key")` lookup live in custom_functions.js, which is not part of this model. Custom functions appear only as uninterpreted namespace entries.
- The tables in data.js are not part of this model. `Init` takes them as parameters.
- JavaScript's enumeration order for integer-like keys (ascending, before the other keys) is not modelled. Entry sequences are taken in the order given.
- Strings are sequences of characters, not UTF-16 code units. Cursor positions and `substring` bounds count characters.
- The browser keeps selection bounds within the input. The keypad lemmas take this as the hypothesis `Editing.ValidSelection`, and the model does not clamp a cursor position written back to the input.
- `console.warn` and `console.error` output: mass warnings are returned as the list of keys, and error logging is dropped.
- Lookups that reach `Object.prototype` properties (a constant or mass named `toString`, say) are not modelled. A name absent from a table is absent.
- `getExecutionContext` is also passed the mass table, which it does not use. The model leaves that parameter out.
- After an `INIT ERROR` the page never installs its handlers, so no `calculate` can follow. `Session` does not forbid calling `Calculate` in that state.
- `prevResult` starts as the empty string in the source. The model starts it as `None`.
