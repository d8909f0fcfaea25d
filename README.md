# TypeScript exercises: generic helpers, a stack, and two filters

This project models the parts of a set of TypeScript language exercises that
do something at run time, and proves what they promise:

- **Generics** (`07_generics/answer.ts`): `getFirst` and `getLast`, which
  return the first or last array element or `undefined`; the generic class
  `Stack<T>`, whose private array `items` is changed in place by `push` and
  `pop` and read by `peek` and `isEmpty`; and `findById`, which returns the
  first record whose `id` matches, or `undefined`, for any record type that
  satisfies the `Identifiable` constraint.
- **Type aliases** (`04_type-aliases/answer.ts`): the `Status` union
  (`"pending" | "completed" | "canceled"`), the `Task` record, and
  `getCompletedTasks`, which keeps the completed tasks.
- **Interfaces** (`03_interfaces/answer.ts`): the `Product` record and
  `showAvailableProducts`, which keeps the products in stock and prints one
  `name: ¥price` line for each of them.

How the source's notions are represented:

- `T | undefined` is `Option<T>` (module `Wrappers`). The two differ when an
  element is itself `undefined`; see "## Left out".
- `Stack<T>` is a class whose field `items: seq<T>` is reassigned by `Push`
  and `Pop`. The end of the sequence is the top of the stack. `Peek` and
  `IsEmpty` are functions that read the object.
- The constraint `T extends Identifiable` is a parameter `idOf: T -> int`.
  It reads the identifier of a record. Identifiers and prices are `int`.
- The array `filter` method is `Seqs.Filter`. Its contract pins the result
  down uniquely: it contains only elements that pass the test, every passing
  element with its multiplicity, and it is a subsequence of the input
  (`Seqs.IsSubsequence`), so input order is kept.
- Each console line of `showAvailableProducts` is a `PriceLine(name, price)`
  value. The method returns these lines in the order they would be printed.
- Records are immutable values, so no operation can modify its input
  products or tasks.
- `Status` is a datatype with exactly three constructors, so a task's status
  is always one of the three values.

## Model

| member | source | states |
|---|---|---|
| `Generics.GetFirst` | 07_generics/answer.ts:2-4 | the result is `None` exactly when the array is empty; otherwise it is the element at index 0 |
| `Generics.GetLast` | 07_generics/answer.ts:6-8 | the result is `None` exactly when the array is empty; otherwise it is the element at index `length - 1` |
| `Generics.LastOfAppend` | 07_generics/answer.ts:2-8 | after appending `x`, `getLast` gives `x`; `getFirst` changes only if the array was empty |
| `Generics.Stack.constructor` | 07_generics/answer.ts:19-20 | a new stack has no items and `IsEmpty()` holds |
| `Generics.Stack.Push` | 07_generics/answer.ts:22-24 | the items become the old items followed by `item`, so `item` is the new top and the stack is not empty |
| `Generics.Stack.Pop` | 07_generics/answer.ts:26-28 | the result is the value `Peek` gave before the call; a non-empty stack loses exactly its last element; an empty stack returns `None` and stays empty |
| `Generics.Stack.Peek` | 07_generics/answer.ts:30-32 | the result is `getLast` of the items; it is `None` exactly when the stack is empty; being a function, repeated calls give the same value and change nothing |
| `Generics.Stack.IsEmpty` | 07_generics/answer.ts:34-36 | true exactly when the stack holds no items |
| `Generics.PushAllThenPopAll` | 07_generics/answer.ts:19-37 | after pushing any sequence onto a new stack, popping as many times as were pushed yields a value every time, the values come out in reverse order, and the stack is then empty (last in, first out) |
| `Generics.NumberStackScenario` | 07_generics/answer.ts:39-44 | after pushing 1, 2, 3 two pops give 3 then 2 and leave `[1]` |
| `Generics.DrainScenario` | 07_generics/answer.ts:26-32 | on a stack holding only 1, peek gives 1 without removing it, pop gives 1, a further pop gives `None`, and the stack is empty |
| `Generics.StringStackScenario` | 07_generics/answer.ts:46-50 | after pushing "hello" and "world", peek and pop both give "world" and `["hello"]` remains |
| `Generics.FindById` | 07_generics/answer.ts:57-59 | the result is `None` exactly when no record has the identifier (so always for an empty array); otherwise it is a record at an index whose identifier matches and before which no record matches |
| `Generics.FindByIdAppend` | 07_generics/answer.ts:57-59 | searching `a + b` gives the match found in `a` if there is one, and otherwise the match found in `b` |
| `Generics.FindByIdExamples` | 07_generics/answer.ts:57-59 | with identifiers 1, 2, 3, asking for 2 finds that record and asking for 99 finds nothing; with two records of identifier 5 the earlier one is found; an empty array never matches |
| `Seqs.Filter` | 04_type-aliases/answer.ts:31 | the array `filter`: only passing elements, every passing element with its multiplicity, in input order, no longer than the input |
| `Seqs.FilterIdempotent` | 04_type-aliases/answer.ts:31 | filtering a filtered array with the same test changes nothing |
| `TypeAliases.GetCompletedTasks` | 04_type-aliases/answer.ts:30-32 | every returned task has status `completed`; each completed input task is returned as often as it occurs; the result keeps input order and is no longer than the input |
| `TypeAliases.GetCompletedTasksIdempotent` | 04_type-aliases/answer.ts:30-32 | applying the selection to its own output changes nothing |
| `TypeAliases.NoCompletedTasks` | 04_type-aliases/answer.ts:30-32 | an input without completed tasks, the empty input included, yields the empty result |
| `TypeAliases.AllCompletedTasks` | 04_type-aliases/answer.ts:30-32 | an input of only completed tasks comes back unchanged |
| `TypeAliases.SampleCompletedTasks` | 04_type-aliases/answer.ts:11-34 | of the pending, completed and canceled sample tasks only `task2` is selected |
| `Interfaces.AvailableProducts` | 03_interfaces/answer.ts:51 | every kept product is in stock; each in-stock product is kept as often as it occurs; input order is kept |
| `Interfaces.ShowAvailableProducts` | 03_interfaces/answer.ts:50-56 | one line per in-stock product, in input order, each carrying that product's name and price |
| `Interfaces.LinesComeFromStockedProducts` | 03_interfaces/answer.ts:51-54 | every printed line is the name and price of an in-stock product of the input |
| `Interfaces.NothingInStock` | 03_interfaces/answer.ts:50-56 | an input that is empty or entirely out of stock prints nothing |
| `Interfaces.SampleListing` | 03_interfaces/answer.ts:34-58 | for the two sample products only the laptop at 89800 yen is printed |

## Left out

- Console output is not modelled. This includes the demonstration statements at the top level of each file. In `showAvailableProducts` the printed lines become the returned sequence.
- Interfaces.ShowAvailableProducts: the text of a line (`name: ¥price`, with the price written in decimal as JavaScript prints a number) is not built. A line is the pair of name and price it is made from.
- Generics.GetFirst: an array element that is itself `undefined` reads as absence in the source (`getFirst([undefined])` gives `undefined`); `Option` keeps `Some(undefined)` and `None` apart, so "`None` exactly when empty" describes element types without `undefined`.
- Generics.GetLast: the same holds for a last element that is `undefined`.
- Generics.Stack.Peek: on a stack whose top is `undefined` the source returns `undefined`, indistinguishable from an empty stack; the model returns `Some` of that element.
- Generics.Stack.Pop: the same holds for popping an `undefined` top; the array still shrinks by one, as in the model.
- Generics.Stack.Push: the stack is unbounded. A JavaScript array holds at most 2^32 - 1 elements and a `push` beyond that throws `RangeError`, which is not modelled.
- Interfaces.ShowAvailableProducts: prices are integers, so a fractional price such as `19.99` is not modelled.
- Generics.FindById: identifiers are integers. JavaScript number semantics (`NaN`, which never equals itself, and fractional ids) are not modelled.
- The `Date` of a task's optional `dueDate` is a millisecond timestamp. No operation reads it.
- `ApiResponse<T>` in `04_type-aliases/answer.ts` and `User` in `03_interfaces/answer.ts` are type declarations with no operations on them.
- `01_basic-types`, `05_functions`, `06_classes` and `08_advanced-types` are not part of this model. They hold constant declarations, floating-point arithmetic, accessor and string-formatting demonstrations, and compile-time-only types.
