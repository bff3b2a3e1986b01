# Card mover: a Dafny model of its decision logic

The project models a GitHub Actions step that moves issue cards on a
GitHub Projects (classic) board. A run of the step works as follows:

1. It picks the issue set: the `issues` input when that is non-empty,
   otherwise the triggering event's payload, with a single object wrapped
   into a one-element array.
2. It stops with a no-op when the first entry has no `issue`.
3. It takes the owner and repo from the first issue's `repository_url`.
4. It selects the target column from every returned project's columns.
   The match is by exact id when `target-column-id` is non-empty, and
   otherwise by name, ignoring case.
5. It looks up the project cards of every issue and collects their ids in
   issue order. Issues whose `projectCards` is null are skipped.
6. It fails with a message naming both selectors when no column was
   selected. Otherwise it requests one `moveProjectCard` per card id, each
   to the selected column.

The three GraphQL calls are not performed. The server's answers are
parameters. `columnsFor` is a function from the columns query (owner,
repo, project name) to the projects it returns. `cardsFor` is a function
from an issue node id to the `node` the card query returns. A run is
described by a `Trace` value. The trace holds the columns query sent (if
any), the node ids whose cards were looked up, and the outcome: `NoOp`,
`Failed(message)` or `Moves(moves)`.

Files:

- `Wrappers.dfy`: `Option` (JavaScript `undefined` is `None`) and `Result`.
- `JsArray.dfy`: the Array builtins used: indexing, `map`, `filter`,
  `flatMap`, `findIndex`, `find`.
- `JsString.dfy`: `split` on one character with its inverse `join`, and
  `toLowerCase` restricted to ASCII.
- `Json.dfy`: `JSON.stringify` of a string, with a decoder for JSON
  string literals that is its inverse.
- `CardMover.dfy`: the data model, each step of a run, the whole run as
  the function `Plan`, and the driver as the method `Execute`. `Execute`
  has early returns and a loop that requests the moves; it is proved
  equal to `Plan`.
- `CardMoverProperties.dfy`: properties of whole runs.

Two facts about the code that a reader might not expect:

- A missing column does not stop the card lookups. Every issue's cards
  are queried (index.js:75-82) before the not-found check (index.js:85).
  These are read-only queries. The model records them in the trace, and
  the not-found outcome still carries no moves.
- The columns of every project the server returns are flattened
  (index.js:66-68). Picking the last matching project is left to the
  server (`last: 1`).

`target-column-id` counts as given when it is a non-empty string. This is
JavaScript truthiness, which is what the code tests (index.js:70).

The code also throws TypeErrors of its own, and its top-level catch turns
each one into the failure message. The model includes the following of
these error paths; those raised by null parts of a GraphQL answer are
listed under "Left out".
The messages use the wording of the V8 engine from version 9.3
(Node.js 16.9) on; older versions word them differently. The paths are:

- an empty issue set (reading `issue` of `undefined`, index.js:54);
- a `null` first entry (reading `issue` of `null`, index.js:54);
- a first entry whose `issue` is `null` (reading `repository_url`, index.js:59);
- a later entry that is `null` (reading `issue`, index.js:75);
- a later entry whose `issue` is missing or `null` (reading `node_id`, index.js:75);
- a card query whose `node` is `null` (reading `projectCards`, index.js:80).

## Model

| member | source | states |
|---|---|---|
| CardMover.Plan | index.js:40-107 | A whole run as a function of the inputs and the server's answers; its contract states that a run that sent no columns query sent no card query and moved nothing, and that a run with moves looked up cards once per issue |
| CardMover.Execute | index.js:40-107 | The driver's step-by-step run, with its early returns and a move loop, yields exactly the trace `Plan` describes; the loop invariant ties the requested moves to the collected card ids, one move per id, in order, each to the selected column |
| CardMover.IssueSet | index.js:48-49 | The issue set is empty exactly when the `issues` input is empty and the payload is an empty array |
| CardMoverProperties.InputIssuesTakePrecedence | index.js:48-49 | A non-empty `issues` input is the issue set, and the run does not depend on the event payload |
| CardMoverProperties.ArrayPayloadIsUsed | index.js:48-49 | With an empty `issues` input, an array payload is the issue set unchanged |
| CardMoverProperties.ObjectPayloadIsWrapped | index.js:48-49 | With an empty `issues` input, a single-object payload gives the same run as the one-element array holding it |
| CardMoverProperties.NoOpExactlyWithoutIssue | index.js:53-57 | The outcome is a no-op exactly when the issue set is non-empty and its first entry has no `issue`; a no-op sends no columns query, no card query and no move |
| JsString.Split | index.js:60 | `split("/")` gives at least one piece, no piece contains the separator, and joining the pieces with the separator gives back the string |
| JsString.SplitJoin | index.js:60 | Splitting the join of separator-free pieces gives back those pieces, so `Split` is determined by `Join` |
| JsString.SplitAround | index.js:60 | Splitting at one separator is splitting the two sides and concatenating the results |
| JsArray.At | index.js:61-62 | Indexing past the end of an array gives `undefined`, otherwise the element |
| CardMover.RepoCoordinates | index.js:59-62 | Owner and repo are slash-free segments, and the repo is defined only when the owner is |
| CardMover.RepoCoordinatesDefined | index.js:59-62 | The owner is undefined exactly when the URL has fewer than four `/`, and the repo exactly when it has fewer than five |
| JsString.SplitCount | index.js:60 | `split` gives one piece more than the string has separators |
| CardMover.ColumnQueryFor | index.js:59-65 | Definition, no contract: the columns query carries segments 4 and 5 of the URL and the project name |
| CardMover.ApiUrlCoordinates | index.js:59-62 | For `https://api.github.com/repos/{owner}/{repo}` with slash-free owner and repo, possibly followed by more path, segments 4 and 5 are the owner and the repo |
| CardMover.ApiUrlExample | index.js:59-62 | `https://api.github.com/repos/o/r` gives owner `o` and repo `r` |
| CardMoverProperties.NullEntryFails | index.js:54-75 | A null entry, with issues in every entry before it, fails the run with the TypeError of reading `issue` of null, before any card query; a columns query was sent exactly when the null entry is not the first |
| CardMover.NodeIdsFailOnNullEntry | index.js:75 | The node-id `map` throws reading `issue` of the first null entry when every entry before it has an issue |
| CardMoverProperties.ColumnQueryNamesRepository | index.js:59-65 | When the first issue's `repository_url` is `https://api.github.com/repos/{owner}/{repo}` with slash-free owner and repo, optionally followed by a tail that starts with `/`, the columns query of the run asks for that owner and repo and the configured project name |
| CardMover.Columns | index.js:66-68 | Definition, no contract: the `flatMap` of every project's column list, with `ColumnsOf` as the callback; its properties are stated by `ColumnsAppend` and `ColumnsMember` |
| JsArray.FlatMap | index.js:66-68 | Definition, no contract: `flatMap` where the function always returns an array; its properties are stated by `FlatMapAppend`, `FlatMapMember` and `FilterFlatMap` |
| CardMover.ColumnsAppend | index.js:66-68 | The candidate columns of several projects are each project's columns, one after the other, in order |
| CardMover.ColumnsMember | index.js:66-68 | A column is a candidate exactly when some returned project has it |
| JsArray.FlatMapAppend | index.js:66-68 | `flatMap` distributes over concatenation |
| JsArray.FlatMapMember | index.js:66-68 | An element is in a `flatMap` result exactly when some source element produced it |
| JsArray.FindIndex | index.js:70-72 | `findIndex` returns the first position whose element satisfies the predicate, and returns none exactly when no element does |
| JsArray.Find | index.js:70-72 | `find` returns nothing exactly when no element matches, and otherwise returns the element at the first matching position |
| CardMover.SelectColumn | index.js:70-72 | The selected column is the first candidate that matches: by exact id when `target-column-id` is non-empty, otherwise by name ignoring case; there is none exactly when no candidate matches |
| CardMover.Selects | index.js:70-72 | Definition, no contract: match by exact id when the id is non-empty (the callback `HasId`, index.js:71), otherwise by name ignoring case (the callback `HasName`, index.js:72) |
| JsString.EqualsIgnoreCase | index.js:72 | Definition, no contract: `a.toLowerCase() === b.toLowerCase()`; its meaning is stated by `EqualsIgnoreCaseCharwise` |
| CardMover.SameSelection | index.js:70-72 | Two selector pairs that accept the same candidates select the same column |
| CardMover.IdSelectionIgnoresName | index.js:70-71 | With a non-empty column id, the column name plays no part in the selection |
| CardMover.NameSelectionIgnoresCase | index.js:70-72 | Without a column id, configured names that differ only in case select the same column |
| CardMover.ToDoSelectsLowerCaseColumn | index.js:72 | `target-column: "To Do"` selects a column named `"to do"` |
| JsString.ToLowerCase | index.js:72 | Lower-casing keeps the length, leaves no ASCII upper-case letter, maps each upper-case letter to its lower-case partner and keeps every other character |
| JsString.ToLowerCaseIdempotent | index.js:72 | Lower-casing twice is lower-casing once |
| JsString.EqualsIgnoreCaseCharwise | index.js:72 | Comparing lower-cased strings is comparing them position by position up to ASCII case, in both directions |
| JsString.ToDoMatchesLowerCase | index.js:72 | `"To Do"` equals `"to do"` ignoring case and differs from `"To Done"` |
| CardMover.NodeIds | index.js:75 | The node ids are collected exactly when every entry has an `issue`; they are then one per issue, in issue order |
| JsArray.Map | index.js:75-76 | `map` keeps the length and applies the function at every position |
| JsArray.Filter | index.js:79-80 | `filter` keeps only elements that satisfy the predicate and keeps every element that does |
| JsArray.FilterSingleton | index.js:79-80 | `filter` keeps a one-element array exactly when its element passes |
| JsArray.FilterAppend | index.js:79-80 | `filter` of a concatenation is the concatenation of the filtered parts, so order and repetitions are kept; with `FilterSingleton` this determines `filter` |
| JsArray.FilterFlatMap | index.js:79-82 | Filtering out elements that map to nothing does not change a `flatMap` |
| CardMover.CardIds | index.js:77-82 | Definition, no contract: fails when some node is null, otherwise the `flatMap` of the filtered nodes' cards; its properties are stated by the `CardIds...` lemmas below |
| CardMover.HasCards | index.js:80 | Definition, no contract: the `filter` callback `node.projectCards != null`; `Filter`'s contract and `FilterFlatMap` state what filtering by it does |
| CardMover.CardsOf | index.js:81-82 | Definition, no contract: the `flatMap` callbacks, giving a node's card ids in order, or none when `projectCards` is missing or null; `CardIdsInOrder` and `CardIdsMember` state its use |
| CardMover.CardIdsInOrder | index.js:77-82 | Without null nodes, the card ids are every issue's cards concatenated in issue order, and an issue with null `projectCards` contributes none |
| CardMover.CardIdsAppend | index.js:77-82 | The card ids of two issue lists one after the other are the first list's ids followed by the second's |
| CardMover.CardIdsMember | index.js:77-82 | An id is collected exactly when some issue's node lists it among its project cards |
| CardMover.CardIdsFailOnNullNode | index.js:79-80 | Card collection fails exactly when some card query returned a null node |
| CardMover.CardIdsExample | index.js:77-82 | Three issues, one whose `projectCards` is null, one with an empty card list and one with two cards, give exactly the third issue's two card ids |
| Json.EscapeChar | index.js:88-89 | Definition, no contract: how one character appears inside a JSON string literal; its meaning is stated by `EscapeRoundTrip` |
| Json.Escape | index.js:88-89 | Definition, no contract: the escaped body of a JSON string literal; its meaning is stated by `EscapeRoundTrip` |
| Json.Quote | index.js:88-89 | A stringified string starts and ends with a double quote |
| Json.QuoteRoundTrip | index.js:88-89 | Reading a JSON string literal at the start of `JSON.stringify(s) + rest` gives `s` and stops at `rest` |
| Json.EscapeRoundTrip | index.js:88-89 | The escaped body of a string, followed by a quote, decodes to the string |
| Json.QuoteInjective | index.js:88-89 | Different strings stringify differently |
| CardMover.NotFoundMessage | index.js:86-90 | Definition, no contract: the column-not-found message text; its meaning is stated by `NotFoundMessageNamesSelectors` and `NotFoundMessageInjective` |
| CardMover.NotFoundMessageNamesSelectors | index.js:86-90 | Both selectors can be read back, as JSON strings, from the column-not-found message |
| CardMover.NotFoundMessageInjective | index.js:86-90 | Different selector pairs give different column-not-found messages |
| CardMoverProperties.MissingColumnFails | index.js:84-92 | When no column is selected, the run fails with a message naming both selectors and moves nothing, after looking up the cards of every issue |
| CardMover.MovePlan | index.js:100-103 | Definition, no contract: one move per card id, in order, to the given column; `Execute`'s loop is proved to build it |
| CardMoverProperties.SelectedColumnMoves | index.js:75-103 | When every entry has an issue, every card query returns a node and a column is selected, the run's outcome is one move per card id of the issues, concatenated in issue order, each to that column |
| CardMoverProperties.MovesAreTheIssuesCards | index.js:70-103 | A run that moves cards had a selected column and looked up every issue's cards; each move targets the selected column's id, and the moved card ids are the issues' cards concatenated in issue order, one move per card |
| CardMoverProperties.MovedCardsAreReturnedCards | index.js:75-103 | In a run that moves cards, a card id is moved exactly when the card query of some issue returned it |
| CardMoverProperties.TwoIssuesExample | index.js:75-103 | Two issues, one with an empty card list and one with two cards, and a selected column give exactly two moves, for the second issue's cards, to that column |

## Left out

- The GraphQL requests, the bearer-token header and the query texts (index.js:5-38, 109-145). These are network I/O through a client library that is not part of this model. Their answers are the parameters `columnsFor` and `cardsFor`.
- Errors thrown by the GraphQL client (a rejected request, a GraphQL error such as a missing variable when the URL has too few segments) and the catch that reports them (index.js:104-106). The server functions always answer. Of the TypeErrors the code itself raises, those listed above are modelled.
- `Promise.all` and the moves that are started and never awaited (index.js:76, 101). This is asynchrony. The model lists the moves requested, in order, and not whether they complete.
- Reading the inputs, the log lines and the host's failure reporting (index.js:44-46, 51, 55, 86, 96-98, 102, 105). A failure is the `Failed` outcome carrying the message.
- `JSON.parse` of the `issues` input (index.js:43). Its result is taken as a sequence of entries, each `null` or an object. A parse error, a parsed value that is not an array, and entries of other kinds (numbers, strings, booleans) are not modelled.
- The server-side limits `last: 1`, `first: 20` and `first: 5` (index.js:9, 12, 29). `columnsFor` and `cardsFor` may return any number of projects, columns and cards.
- JsString.ToLowerCase: folds ASCII letters only, not full Unicode case mapping.
- Json.Quote: lone UTF-16 surrogates (which `JSON.stringify` escapes) cannot occur, because a Dafny `char` is a Unicode scalar value.
- Issue objects with missing or wrongly typed fields, such as an issue without `repository_url` or with a `repository_url` that is not a string (index.js:59-60). Issues come from the `issues` input or the event payload, not from GraphQL, so nothing rules these out; the model takes `repository_url` and `node_id` to be strings, and the TypeErrors such inputs raise are not modelled.
- An array returned as a card query's `node`, which `flatMap` would flatten (index.js:77). The GraphQL schema rules this shape out.
- Null entries of a GraphQL connection and null nodes inside one: a null project edge or `node` (reading `columns`, index.js:67), a null column edge (reading `node`, index.js:68), a null column reached by `find` before a match (reading `id` or `name`, index.js:71-72), and a null card edge or card `node` (reading `node` or `id`, index.js:82). The schema allows these, but in the model a project is a list of columns and a card list is a list of ids, so these answers and their TypeErrors cannot be expressed.
