# Pokédex home list — a Dafny model

This project models the home screen's state in the Pokédex Android client. That state lives in
the view-model `PokemonListViewModel`, which holds:

- the accumulated list of `PokedexList(name, imgUrl, number)` entries;
- the page counter `currentPage`;
- the flags `loadError`, `isLoading`, `endReached` and `isSearching`;
- the search snapshot `cachedPokemonList` and the session flag `isSearchStart`.

It has two actions:

- `loadPokemonPaginated` consumes the repository's list response and derives one entry per
  summary. The number is the URL's trailing digits, the sprite URL is a fixed template around
  those digits, and the name gets its first letter title-cased.
- `searchPokemonList` filters the list in memory, against a snapshot taken at the first
  non-empty query of a session.

The project also models the two-column grid of `PokemonHomeScreen`: the row count, the entries
each row shows, and the condition under which composing a row asks for another load.

Modules, one per concern:

- `Int32`: Kotlin `Int` arithmetic with wrap-around. It is used for `currentPage++` and
  `PAGE_SIZE * currentPage`.
- `Text`: ASCII models of the Kotlin calls the view-model uses: `isDigit`, `isWhitespace`,
  `isLowerCase`/`titlecase`, `trim`, `contains(ignoreCase = true)` (through `indexOf`),
  `takeLastWhile`, `toInt` and `Int.toString`.
- `Responses`: the repository's output — `Result(name, url)`, `PokemonList(count, results)`,
  `Resource = Success | Error(message)` — and the request `PageRequest(limit, offset)`.
- `PokedexEntries`: the entry type, its derivation from a summary, the search predicate
  `Matches` and the `filter`.
- `ListViewModel`: the state as a value (`ListState`) and the steps `StartLoad`, `FinishLoad`
  and `Search`. It also holds the class `PokemonListViewModel`, whose fields mirror the
  view-model and whose methods are proved to perform exactly those steps. The lemmas about the
  steps come after the class.
- `HomeScreen`: the grid arithmetic and the load trigger.

`loadPokemonPaginated` is split where it suspends on the repository call:

- `LoadPokemonPaginated` raises `isLoading` and returns the request it sends.
- `ReceivePokemonList` consumes the result.

A search may run between the two, as the source allows. The repository result is an input to
`ReceivePokemonList`, not a call.

The model follows the code in these details:

- Every load requests `getPokemonList(1302, 0)`. The limit and offset are fixed, and
  `currentPage` plays no part (`ReloadAppendsSamePageAgain`).
- `endReached` compares `PAGE_SIZE * currentPage` with `count`, using `currentPage` from before
  the increment. It does not compare the number of entries fetched (`EndReachedLagsOnePage`,
  `FirstLoadNeverReachesEnd`). It is recomputed on every success, not latched.
- The snapshot starts empty. An empty query before any non-empty one therefore empties the list
  (`ClearBeforeAnySearchEmptiesList`).
- The name test trims the query. The number test compares with the query as typed
  (`PaddedQueryMatchesByNameOnly`). A whitespace-only query keeps every entry
  (`BlankQueryKeepsAll`).
- A page that arrives during a search is appended to the filtered list, not to the snapshot.
  Clearing the query then drops it (`PageArrivingDuringSearch`).
- The repository's `Error` never carries data, so the model's `Error` has only the message.

## Model

| member | source | states |
|---|---|---|
| `Int32.Mul` | app/src/main/java/com/example/pokedex/pokemonList/PokemonListViewModel.kt:85 | `PAGE_SIZE * currentPage` is the Int congruent to the exact product modulo 2^32, and it is the exact product whenever that fits |
| `Int32.Inc` | app/src/main/java/com/example/pokedex/pokemonList/PokemonListViewModel.kt:106 | `currentPage++` adds one below Int.MAX_VALUE and wraps to Int.MIN_VALUE at it |
| `Text.IsDigit` | app/src/main/java/com/example/pokedex/pokemonList/PokemonListViewModel.kt:89-91 | the characters `isDigit` accepts in the URL: the ASCII digits '0' to '9' (definition) |
| `Text.IsWhitespace` | app/src/main/java/com/example/pokedex/pokemonList/PokemonListViewModel.kt:58 | the characters `trim()` cuts from the query: TAB to CR, the separators FS to US, and SPACE (definition) |
| `Text.IsLowerCase` | app/src/main/java/com/example/pokedex/pokemonList/PokemonListViewModel.kt:97 | the characters `isLowerCase` accepts at the head of a name: 'a' to 'z' (definition) |
| `Text.UpperCase` | app/src/main/java/com/example/pokedex/pokemonList/PokemonListViewModel.kt:96-100 | a lower-case letter becomes its upper-case letter; any other character is unchanged; the result is never lower-case |
| `Text.SameIgnoringCase` | app/src/main/java/com/example/pokedex/pokemonList/PokemonListViewModel.kt:58 | two characters count as equal under `ignoreCase = true` iff their upper-case forms are equal (definition) |
| `Text.Trim` | app/src/main/java/com/example/pokedex/pokemonList/PokemonListViewModel.kt:58 | `query.trim()` is a slice of the query; everything cut off on either side is whitespace; a non-empty result starts and ends with non-whitespace; the result is empty iff the query is all whitespace |
| `Text.IndexOfIgnoreCase` | app/src/main/java/com/example/pokedex/pokemonList/PokemonListViewModel.kt:58 | the result is -1 when no position at or after `from` matches ignoring case; otherwise it is the first such position |
| `Text.ContainsIgnoreCase` | app/src/main/java/com/example/pokedex/pokemonList/PokemonListViewModel.kt:58 | `name.contains(q, ignoreCase = true)` holds iff q occurs at some position of the name, character by character ignoring case (both directions) |
| `Text.IndexOfIgnoresCaseOfText` | app/src/main/java/com/example/pokedex/pokemonList/PokemonListViewModel.kt:58 | two texts that differ only in letter case give the same case-insensitive search result for every query |
| `Text.TakeLastDigits` | app/src/main/java/com/example/pokedex/pokemonList/PokemonListViewModel.kt:89-91 | `takeLastWhile { isDigit }` is a suffix of digits, and the character before it, if any, is not a digit (the longest such run) |
| `Text.NatToString` | app/src/main/java/com/example/pokedex/pokemonList/PokemonListViewModel.kt:59 | `number.toString()` of a non-negative number is a non-empty digit string with no leading zero; it has one digit iff the number is below 10 |
| `Text.IntToString` | app/src/main/java/com/example/pokedex/pokemonList/PokemonListViewModel.kt:59 | `number.toString()` of a non-negative number is canonical digits that read back as the number; a negative number prints as "-" followed by the canonical digits of its magnitude |
| `Text.ParseNatToString` | app/src/main/java/com/example/pokedex/pokemonList/PokemonListViewModel.kt:59 | reading back the printed decimal of a number gives that number |
| `Text.NatToStringOfParse` | app/src/main/java/com/example/pokedex/pokemonList/PokemonListViewModel.kt:102 | printing the value of a digit string with no leading zero gives that digit string back |
| `Text.IntToStringOfParse` | app/src/main/java/com/example/pokedex/pokemonList/PokemonListViewModel.kt:102 | `toInt` followed by `toString` returns the same digits iff they have no superfluous leading zero |
| `Text.ParseDecimal` | app/src/main/java/com/example/pokedex/pokemonList/PokemonListViewModel.kt:102 | the value `toInt` reads from a digit string (leading zeros allowed) is 0 iff every digit is '0'; `ToIntSucceeds` adds that the string is non-empty and the value fits an Int, and the round trips with `toString` are `ParseNatToString` and `IntToStringOfParse` |
| `PokedexEntries.NumberString` | app/src/main/java/com/example/pokedex/pokemonList/PokemonListViewModel.kt:88-92 | the number string is the longest run of digits ending the URL, after one trailing "/" is dropped |
| `PokedexEntries.NumberOfResourceUrl` | app/src/main/java/com/example/pokedex/pokemonList/PokemonListViewModel.kt:88-92 | "prefix/NN/" and "prefix/NN" both give "NN", whatever comes before the digits |
| `PokedexEntries.UrlExamples` | app/src/main/java/com/example/pokedex/pokemonList/PokemonListViewModel.kt:88-92 | ".../pokemon/25/" and ".../pokemon/25" both give "25" |
| `PokedexEntries.ImgUrl` | app/src/main/java/com/example/pokedex/pokemonList/PokemonListViewModel.kt:93-94 | the sprite URL template, the fixed prefix and ".png" around the number string; `SpriteNumberOfImgUrl` reads the number string back out of it (definition) |
| `PokedexEntries.SpriteNumberOfImgUrl` | app/src/main/java/com/example/pokedex/pokemonList/PokemonListViewModel.kt:93-94 | the sprite URL is the fixed template around the number string, and the number string can be read back out of it |
| `PokedexEntries.TitleCaseFirst` | app/src/main/java/com/example/pokedex/pokemonList/PokemonListViewModel.kt:96-100 | the name keeps its length and every character after the first; the first character is upper-cased iff it was lower-case, and it is never lower-case afterwards |
| `PokedexEntries.TitleCaseInvisibleToSearch` | app/src/main/java/com/example/pokedex/pokemonList/PokemonListViewModel.kt:58 | the case-insensitive name test gives the same answer on the title-cased name as on the name the server sent |
| `PokedexEntries.DeriveEntry` | app/src/main/java/com/example/pokedex/pokemonList/PokemonListViewModel.kt:87-104 | the entry built from a summary has the title-cased name; its sprite URL is the fixed prefix and suffix around the URL's number string; its number fits an Int and equals the value of the digits inside its own sprite URL |
| `PokedexEntries.NumberTextOfEntry` | app/src/main/java/com/example/pokedex/pokemonList/PokemonListViewModel.kt:102 | an entry's number prints back as its URL's digits iff those digits have no leading zero, so "025" does not print back as "025" |
| `PokedexEntries.LeadingZeroNumber` | app/src/main/java/com/example/pokedex/pokemonList/PokemonListViewModel.kt:88-102 | the URL ".../pokemon/025/" passes `toInt` and gives number 25, while its sprite URL keeps the digits "025" |
| `PokedexEntries.DeriveEntries` | app/src/main/java/com/example/pokedex/pokemonList/PokemonListViewModel.kt:86-105 | the response gives exactly one entry per summary, and entry i is derived from summary i |
| `PokedexEntries.DigitQueryMatchesNumberOnly` | app/src/main/java/com/example/pokedex/pokemonList/PokemonListViewModel.kt:57-60 | a digit query matches an entry whose name has no digits iff the entry's number prints exactly as the query (an exact match, not a substring) |
| `PokedexEntries.Matches` | app/src/main/java/com/example/pokedex/pokemonList/PokemonListViewModel.kt:58-59 | the filter predicate: an entry matches iff its name has a case-insensitive occurrence of the trimmed query at some position, or its number prints exactly as the untrimmed query |
| `PokedexEntries.PaddedQueryMatchesByNameOnly` | app/src/main/java/com/example/pokedex/pokemonList/PokemonListViewModel.kt:58-59 | a query with leading or trailing whitespace can only match by name, because the number test uses the untrimmed query |
| `PokedexEntries.Filter` | app/src/main/java/com/example/pokedex/pokemonList/PokemonListViewModel.kt:57 | `filter` returns no more entries than it was given, and each one is from the list and is accepted by the predicate |
| `PokedexEntries.FilterIsSubsequence` | app/src/main/java/com/example/pokedex/pokemonList/PokemonListViewModel.kt:57 | the filtered list is an order-preserving subsequence of the list |
| `PokedexEntries.FilterCounts` | app/src/main/java/com/example/pokedex/pokemonList/PokemonListViewModel.kt:57 | an accepted entry is kept as often as it occurs; a rejected one is dropped completely |
| `PokedexEntries.FilterAppend` | app/src/main/java/com/example/pokedex/pokemonList/PokemonListViewModel.kt:57 | filtering a concatenation gives the concatenation of the filtered parts |
| `PokedexEntries.FilterKeepingAll` | app/src/main/java/com/example/pokedex/pokemonList/PokemonListViewModel.kt:57 | a predicate that accepts every entry leaves the list unchanged |
| `PokedexEntries.FilterMeaning` | app/src/main/java/com/example/pokedex/pokemonList/PokemonListViewModel.kt:57 | the filtered list is an order-preserving subsequence holding every accepted entry as often as the list does and no rejected entry |
| `PokedexEntries.SearchResults` | app/src/main/java/com/example/pokedex/pokemonList/PokemonListViewModel.kt:57-60 | the search result is a subsequence of the searched list; an entry is in it, as often as in the list, iff it matches the query |
| `PokedexEntries.SearchOfAppendedPage` | app/src/main/java/com/example/pokedex/pokemonList/PokemonListViewModel.kt:57-60 | searching a list with a page appended gives the results for the list followed by the results for the page |
| `PokedexEntries.BlankQueryKeepsAll` | app/src/main/java/com/example/pokedex/pokemonList/PokemonListViewModel.kt:58 | the filter with a query made only of whitespace keeps the whole list, because the trimmed query is empty and occurs in every name |
| `ListViewModel.PokemonListViewModel.constructor` | app/src/main/java/com/example/pokedex/pokemonList/PokemonListViewModel.kt:27-36 | the view-model starts with page 0, no entries, no error, every flag off, an empty snapshot and a session not yet started |
| `ListViewModel.PokemonListViewModel.LoadPokemonPaginated` | app/src/main/java/com/example/pokedex/pokemonList/PokemonListViewModel.kt:79-82 | starting a load raises only `isLoading` and sends limit 1302 at offset 0, whatever the page |
| `ListViewModel.PokemonListViewModel.ReceivePokemonList` | app/src/main/java/com/example/pokedex/pokemonList/PokemonListViewModel.kt:83-116 | the fields after the result arrives are those of `FinishLoad` applied to the old state, and the invariant is kept |
| `ListViewModel.PokemonListViewModel.SearchPokemonList` | app/src/main/java/com/example/pokedex/pokemonList/PokemonListViewModel.kt:43-67 | the fields after a search are those of `Search` applied to the old state, and the invariant is kept |
| `ListViewModel.StartLoad` | app/src/main/java/com/example/pokedex/pokemonList/PokemonListViewModel.kt:80-81 | starting a load raises `isLoading` and changes no other field |
| `ListViewModel.FinishLoad` | app/src/main/java/com/example/pokedex/pokemonList/PokemonListViewModel.kt:83-116 | whatever the result, `currentPage` stays an Int, loading ends, the old list stays a prefix of the new one, and the snapshot and the search flags are untouched (the Success and Error cases in full are `LoadSuccess` and `LoadError`) |
| `ListViewModel.Load` | app/src/main/java/com/example/pokedex/pokemonList/PokemonListViewModel.kt:79-116 | a whole `loadPokemonPaginated` with nothing run between its two halves, i.e. `FinishLoad` after `StartLoad`; its effects are stated by `LoadSuccess`, `LoadError`, `FirstLoadNeverReachesEnd`, `ReloadAppendsSamePageAgain` and `EndReachedLagsOnePage` (definition) |
| `ListViewModel.Search` | app/src/main/java/com/example/pokedex/pokemonList/PokemonListViewModel.kt:43-67 | search mode is on iff the query is non-empty, the session flag is its negation, and the page, the error, `isLoading` and `endReached` are untouched (the list shown is `SearchNonEmpty` and `SearchEmpty`) |
| `ListViewModel.SearchSource` | app/src/main/java/com/example/pokedex/pokemonList/PokemonListViewModel.kt:44-48 | `listToSearch`: the live list when a session starts, the snapshot afterwards; it is "the searched list" of `SearchNonEmpty` and `PageArrivingDuringSearch` (definition) |
| `ListViewModel.StepsKeepConsistent` | app/src/main/java/com/example/pokedex/pokemonList/PokemonListViewModel.kt:32-36 | every step keeps `currentPage` an Int, and keeps `isSearching` equal to the negation of `isSearchStart` |
| `ListViewModel.LoadSuccess` | app/src/main/java/com/example/pokedex/pokemonList/PokemonListViewModel.kt:84-110 | on Success the old list is kept as a prefix, followed by one derived entry per summary in response order. The length grows by the number of summaries and the page by one. The error is cleared and loading ends. `endReached` is `PAGE_SIZE * oldPage >= count`. The search state is unchanged |
| `ListViewModel.LoadError` | app/src/main/java/com/example/pokedex/pokemonList/PokemonListViewModel.kt:112-115 | on Error the message is stored and loading ends; the list, the page, `endReached`, the snapshot and the search flags are unchanged |
| `ListViewModel.FirstLoadNeverReachesEnd` | app/src/main/java/com/example/pokedex/pokemonList/PokemonListViewModel.kt:85 | with a positive count, the first successful load leaves `endReached` false, even if the response holds every entry |
| `ListViewModel.ReloadAppendsSamePageAgain` | app/src/main/java/com/example/pokedex/pokemonList/PokemonListViewModel.kt:82 | two loads answered with the same response append its entries twice |
| `ListViewModel.LoadsAccumulate` | app/src/main/java/com/example/pokedex/pokemonList/PokemonListViewModel.kt:106-115 | after any run of successes and errors, the list is the old list followed by every successful page in arrival order. Its length has grown by the number of summaries fetched. The page has grown by the number of successes. The search state is untouched |
| `ListViewModel.EndReachedLagsOnePage` | app/src/main/java/com/example/pokedex/pokemonList/PokemonListViewModel.kt:85-106 | after a success, `endReached` holds iff `PAGE_SIZE * (currentPage - 1) >= count`, i.e. it is computed from the pages loaded before this one (while the Int arithmetic does not wrap) |
| `ListViewModel.SearchNonEmpty` | app/src/main/java/com/example/pokedex/pokemonList/PokemonListViewModel.kt:44-66 | a non-empty query shows a subsequence of the searched list holding exactly the matching entries, turns search mode on, and leaves the snapshot equal to the list it searched. Within a session the snapshot is never modified |
| `ListViewModel.SearchEmpty` | app/src/main/java/com/example/pokedex/pokemonList/PokemonListViewModel.kt:51-55 | the empty query shows the snapshot, turns search mode off and ends the session |
| `ListViewModel.SessionRestores` | app/src/main/java/com/example/pokedex/pokemonList/PokemonListViewModel.kt:44-66 | every query of a session filters the list as it was when the session began, never the previous result; clearing the query afterwards restores that list exactly |
| `ListViewModel.ClearBeforeAnySearchEmptiesList` | app/src/main/java/com/example/pokedex/pokemonList/PokemonListViewModel.kt:35-52 | after construction and any loads, an empty query with no session yet empties the list |
| `ListViewModel.PageArrivingDuringSearch` | app/src/main/java/com/example/pokedex/pokemonList/PokemonListViewModel.kt:44-109 | a page arriving while a search is shown is appended after the filtered entries, and the snapshot does not get it; clearing the query then shows the snapshot without it |
| `HomeScreen.ItemCount` | app/src/main/java/com/example/pokedex/pokemonList/PokemonHomeScreen.kt:142-146 | the row count is `(n + 1) / 2`, the ceiling of n / 2 |
| `HomeScreen.Rows` | app/src/main/java/com/example/pokedex/pokemonList/PokemonHomeScreen.kt:147-151 | the column composes one row per row index below the row count |
| `HomeScreen.PokedexRow` | app/src/main/java/com/example/pokedex/pokemonList/PokemonHomeScreen.kt:279-307 | row i shows exactly entries 2i and 2i + 1 (or only 2i when it is the last entry), and has a spacer on the right iff it is the last row and the entry count is odd |
| `HomeScreen.LeftIndexInBounds` | app/src/main/java/com/example/pokedex/pokemonList/PokemonHomeScreen.kt:288 | for every row index below the row count, `rowIndex * 2` is a valid entry index |
| `HomeScreen.EntryPosition` | app/src/main/java/com/example/pokedex/pokemonList/PokemonHomeScreen.kt:286-303 | entry j is shown in row j / 2: on the left when j is even, on the right when j is odd |
| `HomeScreen.RowsShowEveryEntryOnce` | app/src/main/java/com/example/pokedex/pokemonList/PokemonHomeScreen.kt:147-303 | read top to bottom and left to right, the rows show the entry list exactly, each entry once and in order |
| `HomeScreen.TriggersLoad` | app/src/main/java/com/example/pokedex/pokemonList/PokemonHomeScreen.kt:148 | the condition composing a row checks before loading; which rows meet it is stated by `LoadTriggeringRows` |
| `HomeScreen.LoadTriggeringRows` | app/src/main/java/com/example/pokedex/pokemonList/PokemonHomeScreen.kt:142-149 | the rows that ask for a load are exactly the last row, and only when nothing is loading and no search is shown. An empty list asks for none. `endReached` plays no part |

## Left out

- Coroutines: both actions are synchronous steps. The load is split at its suspension point, so
  a search can be placed between its two halves. Real interleavings of the
  `Dispatchers.Default` search task with the main thread are not modelled.
- `Resource.Loading`: the repository never returns it, and the view-model would hit `TODO()` on
  it. It is not part of the input datatype.
- `toInt` failing: a URL whose number string is empty or exceeds Int.MAX_VALUE makes `toInt`
  throw and the load crash. `ReceivePokemonList` requires that this does not happen (`Loadable`).
  The crash path is not modelled.
- The `init` block's automatic load: it is the constructor followed by an explicit
  `LoadPokemonPaginated` and `ReceivePokemonList`.
- `calcDominantColor`: a bitmap copy and a Palette callback, i.e. a foreign image library.
- `PokemonRepository`, the Retrofit `PokeApi` and the HTTP cache interceptor: network I/O. Only
  their output is modelled, as the `Resource` input.
- The `next` and `previous` fields of the list response: the view-model never reads them.
- The detail screen and its view-model: layout only. The kg/m conversion and the stat bars are
  floating-point display code.
- Compose observation of the `mutableStateOf` fields: the model has plain fields.
- Drawing, focus and hint state, and image painter states (including `Empty -> TODO()`) of the
  home screen.
- Unicode: `isDigit`, `isWhitespace`, `isLowerCase`, `titlecase` and the case folding of
  `contains(ignoreCase = true)` are modelled on ASCII only. Other characters are never digits,
  letters or whitespace here. The name test compares them exactly. Kotlin accepts non-ASCII
  digits and their values in `toInt`, and `titlecase` can turn one character into several.
- PAGE_SIZE: its value is not part of this model, so it is a constructor parameter with
  0 < PAGE_SIZE <= Int.MAX_VALUE.
- `count` is a Kotlin `Long`. It is an unbounded integer here, which changes nothing, because
  the Int product is widened before the comparison.
- LoadSuccess: states the page increment and `endReached` only where Kotlin's Int arithmetic
  does not wrap. `FinishLoad` itself uses the wrapping `Int32.Inc` and `Int32.Mul`, so the
  method's contract covers the wrapped cases too.
- EndReachedLagsOnePage: states the equivalence only while `currentPage` is below Int.MAX_VALUE
  and `PAGE_SIZE * currentPage` fits an Int. When the product wraps, `endReached` compares the
  wrapped value, as `FinishLoad` and `ReceivePokemonList` state.
- LoadsAccumulate: states the page count only while `currentPage` plus the number of results
  stays within Int, for the same reason.
