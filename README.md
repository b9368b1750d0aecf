# GameTracker client core, modelled in Dafny

GameTracker is a React client for a personal video-game library. It lists the
games in the library, edits and deletes them, rates them with stars, records
hours played, shows reviews and computes personal statistics. This project
models the logic inside the screens and the API helpers. That logic is the
statistics fold, form validation and field updates, the library sort, filter
and delete, the card and star-rating state machines, the JSON update payloads,
the card display helpers and the loading → error → not-found → detail view
precedence of the detail pages. `fetch`, the router and rendering are
abstracted away.

The source has two client trees, and both are modelled:

- `Frontend/public` (plus the `GAMETRAKER-Frontend` library page). These
  screens read typed game records. `GameRecord.Game` holds them: a text field
  is the empty string when the server leaves it out, and a missing number is
  `None`.
- `src`. These screens pass raw JSON objects around. `JsValue.Js` models a
  JavaScript value, and `JsValue.JsObject` a `map<string, Js>`. The JavaScript
  coercions the code relies on are written out as functions: truthiness,
  `||`, `Number()`, `String()`, `===`, `<` against a number, `JSON.stringify`
  on an object, `parseInt` and `repeat`.

Each core source file has its own module:

| module | source file | form |
|---|---|---|
| `Statistics` | Frontend/public/pages/EstadisticasPersonales.js | functions for the derivations; methods with loops for the three `reduce` calls that fill a counter object; a `StatsScreen` class for the fetch state |
| `GameForm` | Frontend/public/pages/FormularioJuego.js | functions for `handleChange` and validation; a `FormScreen` class whose `HandleSubmit` follows the early returns |
| `LibraryPage` | GAMETRAKER-Frontend/node_modules/publlic/pages/BibliotecaJuegos.js | a method building the params; functions for the comparator, sort and genre options; a `LibraryScreen` class |
| `StyledForm` | Frontend/public/pages/FormularioJuego.jsx | functions from the previous record to the next |
| `GameCard` | src/components/Tarjetajuego/TarjetaJuego.jsx | classes `CardStars` and `Card` with their handlers |
| `StarRating` | src/components/StarRating/StarRating.jsx | pure rating functions and a `StarRatingWidget` class for the hover state |
| `LibraryScreen` | src/components/Bibliotecajuegos/BibliotecaJuegos.jsx | a `Library` class, plus the filter-by-id function and its lemmas |
| `GamesApi` | src/api/games.js | functions: the request each helper sends and how its response becomes a value or an error |
| `CardDisplay` | Frontend/public/componets/CardJuego.js | functions for `renderStars`, the status class and the display gates |
| `GameDetail` | Frontend/public/pages/GameDetail.js | a `DetailScreen` class |
| `DetailDraft` | Frontend/public/pages/Gamedeatil.jsx | a `DraftScreen` class and the list-join functions |

Shared modules model the JavaScript runtime the screens use:

- `Wrappers`: `Option`, `Result`.
- `Text`: `trim`, `toLowerCase`, `split`, `join`, `repeat`, `replace(/\s/g, c)`.
- `Numerals`: decimal text, `Number(text)` and `parseInt`.
- `JsValue`: values and coercions.
- `Ordering`: string `<`, the three-way comparator and the stable sort `Array.prototype.sort` performs.
- `GameRecord`: the typed record.

Each asynchronous handler is a method that receives what it awaited, or a
Begin/Finish pair of methods around the await. What it awaited is one of:

- a `GamesApi.Response` (its `ok` flag and its decoded body);
- a `Result` (the awaited value or the thrown message);
- an `Option<string>` (`None` when the awaited call succeeded).

`window.confirm` becomes a boolean parameter. `alert` and `navigate` become
returned values.

## Model

| member | source | states |
|---|---|---|
| `Statistics.TallyCounts` | Frontend/public/pages/EstadisticasPersonales.js:30-33 | the counter built by `acc[k] = (acc[k] \|\| 0) + 1` is well formed, has exactly the keys it was fed, each holding its number of occurrences, and its counts sum to the number of keys fed |
| `Statistics.BumpFacts` | Frontend/public/pages/EstadisticasPersonales.js:31 | one increment keeps the counter well formed, adds 1 to the total and to that key's count (from 0 for a new key), and leaves every other count alone |
| `Statistics.TallySnoc` | Frontend/public/pages/EstadisticasPersonales.js:30-33 | feeding one more key to the fold is one increment of the counter |
| `Statistics.CountByStatus` | Frontend/public/pages/EstadisticasPersonales.js:30-33 | the loop over the games builds the counter of their statuses |
| `Statistics.CountEach` | Frontend/public/pages/EstadisticasPersonales.js:40-42 | the inner `forEach` counts every token of one game into the same counter, in order |
| `Statistics.CountGenres` | Frontend/public/pages/EstadisticasPersonales.js:37-45 | the loop builds the counter of all genre tokens of all games, in the order the fold meets them |
| `Statistics.CountPlatforms` | Frontend/public/pages/EstadisticasPersonales.js:51-56 | the loop builds the counter of the non-empty platform strings |
| `Statistics.StatusCountsSum` | Frontend/public/pages/EstadisticasPersonales.js:29-33 | the status buckets are exactly the statuses present, each holds the number of games with that status, and together they hold `totalGames` |
| `Statistics.Statuses` | Frontend/public/pages/EstadisticasPersonales.js:31 | the key each game adds to the status counter is its status, one per game |
| `Statistics.NonEmpty` | Frontend/public/pages/EstadisticasPersonales.js:39 | `.filter(Boolean)` keeps exactly the non-empty pieces, each as many times as it occurs |
| `Statistics.TrimAll` | Frontend/public/pages/EstadisticasPersonales.js:39 | `.map(g => g.trim())` trims every piece and keeps their number |
| `Statistics.GenreTokensShape` | Frontend/public/pages/EstadisticasPersonales.js:39 | every genre token is non-empty, has no white space at either end and no comma, and is the trimmed form of a comma-separated piece of the genre text |
| `Statistics.GenreKeysNonEmpty` | Frontend/public/pages/EstadisticasPersonales.js:37-45 | no empty genre is ever counted |
| `Statistics.GenreBuckets` | Frontend/public/pages/EstadisticasPersonales.js:37-45 | every genre bucket key is non-empty, the buckets add up to the number of tokens, and a game without genre adds nothing |
| `Statistics.GenreExample` | Frontend/public/pages/EstadisticasPersonales.js:39 | the genre text "RPG, Indie, " gives exactly the tokens RPG and Indie |
| `Statistics.PlatformKeysMembers` | Frontend/public/pages/EstadisticasPersonales.js:51-56 | a platform is counted exactly when it is non-empty and some game has it as its whole platform text |
| `Statistics.PlatformBuckets` | Frontend/public/pages/EstadisticasPersonales.js:51-56 | the platform buckets are exactly the non-empty whole platform strings present, each holding the number of games with that platform; the empty platform has no bucket |
| `Statistics.PlatformKeysCount` | Frontend/public/pages/EstadisticasPersonales.js:51-56 | every non-empty platform is counted once per game that has it |
| `Statistics.Entries` | Frontend/public/pages/EstadisticasPersonales.js:46 | `Object.entries` lists each key in insertion order with its count |
| `Statistics.DescendingComparator` | Frontend/public/pages/EstadisticasPersonales.js:46 | `(a, b) => b - a` has the sign of the descending comparator, so it lets `a` go first exactly when `a >= b` |
| `Statistics.SortByCountCorrect` | Frontend/public/pages/EstadisticasPersonales.js:46 | `sortedGenres`/`sortedPlatforms` are permutations of the entries, ordered by non-increasing count, with entries of equal count in their original order |
| `Statistics.TotalHoursFacts` | Frontend/public/pages/EstadisticasPersonales.js:35 | the hours total is additive over concatenation (a game without hours adds 0) and no game's hours exceed it |
| `Statistics.RatedGamesFilter` | Frontend/public/pages/EstadisticasPersonales.js:48 | the rated games are exactly the games with a positive score, each as often as in the collection |
| `Statistics.AverageDefined` | Frontend/public/pages/EstadisticasPersonales.js:48-49 | with no rated game the average is 0 (the `\|\| 0` on 0/0); otherwise average × count equals the score sum of the rated games |
| `Statistics.AverageBounds` | Frontend/public/pages/EstadisticasPersonales.js:48-49 | with scores of at most 5 and at least one rated game, the average lies in [1, 5] |
| `Statistics.GamesWithScoresPermutation` | Frontend/public/pages/EstadisticasPersonales.js:60 | `gamesWithScores` is a permutation of the rated games, with equal scores in collection order |
| `Statistics.GamesWithScoresOrdered` | Frontend/public/pages/EstadisticasPersonales.js:60 | `gamesWithScores` holds rated games only, by non-increasing score |
| `Statistics.BestGamesCorrect` | Frontend/public/pages/EstadisticasPersonales.js:61 | `bestGames` is the first min(3, n) rated games by score, and no game left out scores higher than one in it |
| `Statistics.WorstGamesCorrect` | Frontend/public/pages/EstadisticasPersonales.js:62 | `worstGames` is empty for n ≤ 3; otherwise it is the last three reversed, in non-decreasing score, none above a game left out |
| `Statistics.WorstOfOrdered` | Frontend/public/pages/EstadisticasPersonales.js:62 | the last three of a non-increasing list of rated games, reversed, are its three lowest in ascending order |
| `Statistics.ScenarioThreeGames` | Frontend/public/pages/EstadisticasPersonales.js:48-62 | games scored 5, 0 and 3: two count as rated, the average is 4, the best list is [5, 3] and the worst list is empty |
| `Statistics.StatsScreen.constructor` | Frontend/public/pages/EstadisticasPersonales.js:6-8 | no games, loading, no error |
| `Statistics.StatsScreen.BeginFetch` | Frontend/public/pages/EstadisticasPersonales.js:10-12 | loading on, error cleared, games kept |
| `Statistics.StatsScreen.FinishFetch` | Frontend/public/pages/EstadisticasPersonales.js:13-21 | success replaces the games; failure keeps them and records the message; loading ends either way |
| `Statistics.StatsScreen.View` | Frontend/public/pages/EstadisticasPersonales.js:65-73 | loading before error, a non-empty error before the statistics (an empty message is falsy); the empty-library message exactly for zero games; the total shown is the number of games |
| `GameForm.Change` | Frontend/public/pages/FormularioJuego.js:51-57 | `score`/`hoursPlayed` become the number their text reads as (decimals included), or stay `''` for empty text; any other field stores the text as typed |
| `GameForm.ChangeOnlyNamed` | Frontend/public/pages/FormularioJuego.js:53-55 | every field other than the named one keeps its value |
| `GameForm.ChangeNumberRoundTrip` | Frontend/public/pages/FormularioJuego.js:55 | typing the decimal text of an integer into a number field stores that integer |
| `GameForm.ValidationOrder` | Frontend/public/pages/FormularioJuego.js:64-84 | the title error exactly for a blank title; the platform error exactly for a valid title and blank platform; the score error exactly when both pass and the score, a real number, is below 1 or above 5; the hours error exactly when those pass and the hours are negative; no error exactly when all pass |
| `GameForm.MessagesDistinct` | Frontend/public/pages/FormularioJuego.js:66-81 | the four messages differ, so the message identifies the failed check |
| `GameForm.ScoreInputAccepted` | Frontend/public/pages/FormularioJuego.js:75 | with valid title, platform and hours, an empty score is accepted and a typed integer score is accepted exactly in [1, 5] |
| `GameForm.DecimalFields` | Frontend/public/pages/FormularioJuego.js:55 | the texts "7.5", "4.5", "2.0" and "-1.5" are stored as those numbers |
| `GameForm.DecimalInputs` | Frontend/public/pages/FormularioJuego.js:75-80 | with a valid title, platform and hours, a score of "7.5" is out of range, "4.5" is accepted, "2.0" stores the same as "2", and hours of "-1.5" are negative |
| `GameForm.FormScreen.constructor` | Frontend/public/pages/FormularioJuego.js:7-21 | the initial record, loading, not submitting, no error |
| `GameForm.FormScreen.Mount` | Frontend/public/pages/FormularioJuego.js:25-49 | a fetch exactly when editing (with loading on and the error cleared); in create mode loading ends without a fetch |
| `GameForm.FormScreen.FinishLoad` | Frontend/public/pages/FormularioJuego.js:30-42 | the loaded record replaces the form, or the message is recorded; loading ends |
| `GameForm.FormScreen.HandleChange` | Frontend/public/pages/FormularioJuego.js:51-57 | the form becomes `Change` of the previous form; nothing else changes |
| `GameForm.FormScreen.HandleSubmit` | Frontend/public/pages/FormularioJuego.js:59-101 | a failed check sets its message, calls nothing and alerts nothing; otherwise update exactly when an id is present, else create; navigation exactly on success; the success alert names an update when editing and a creation otherwise, and a failure alerts nothing; `submitting` ends false |
| `LibraryPage.Present` | GAMETRAKER-Frontend/node_modules/publlic/pages/BibliotecaJuegos.js:27-30 | a parameter is kept exactly when its value is non-empty |
| `LibraryPage.BuildParams` | GAMETRAKER-Frontend/node_modules/publlic/pages/BibliotecaJuegos.js:27-30 | the params are search, status and genre in that order, each only when its filter is non-empty |
| `LibraryPage.ParamsLookup` | GAMETRAKER-Frontend/node_modules/publlic/pages/BibliotecaJuegos.js:27-30 | looking up search, status or genre gives the filter value when non-empty and nothing otherwise |
| `LibraryPage.CompareGames` | GAMETRAKER-Frontend/node_modules/publlic/pages/BibliotecaJuegos.js:42-52 | the comparator returns -1, 0 or 1 |
| `LibraryPage.CompareGamesIgnoresCase` | GAMETRAKER-Frontend/node_modules/publlic/pages/BibliotecaJuegos.js:46-51 | on text fields: 0 exactly when the lowercased texts are equal; with asc -1 exactly when the lowercased first is smaller, otherwise 1 exactly then |
| `LibraryPage.CompareGamesSigns` | GAMETRAKER-Frontend/node_modules/publlic/pages/BibliotecaJuegos.js:49-51 | with asc a smaller key gives -1 and a larger 1, any other order inverts the signs, equal keys and a missing score give 0 |
| `LibraryPage.SortGamesCorrect` | GAMETRAKER-Frontend/node_modules/publlic/pages/BibliotecaJuegos.js:42-54 | the stored list is a permutation of the fetched data; when every game has the field no pair is out of order for the comparator; games with equal keys keep their fetched order |
| `LibraryPage.Genres` | GAMETRAKER-Frontend/node_modules/publlic/pages/BibliotecaJuegos.js:109 | `map(game => game.genre).filter(Boolean)` holds exactly the non-empty genres of the games |
| `LibraryPage.DedupFacts` | GAMETRAKER-Frontend/node_modules/publlic/pages/BibliotecaJuegos.js:109 | `Array.from(new Set(xs))` has the same members as `xs` and no repeats |
| `LibraryPage.AvailableGenresCorrect` | GAMETRAKER-Frontend/node_modules/publlic/pages/BibliotecaJuegos.js:109 | the genre options are exactly the distinct non-empty genres of the current list |
| `LibraryPage.LibraryScreen.constructor` | GAMETRAKER-Frontend/node_modules/publlic/pages/BibliotecaJuegos.js:9-18 | no games, loading, no error, empty filters, sorted by title ascending |
| `LibraryPage.LibraryScreen.BeginFetch` | GAMETRAKER-Frontend/node_modules/publlic/pages/BibliotecaJuegos.js:23-30 | loading on, error cleared, the request params from the current filters, filters unchanged |
| `LibraryPage.LibraryScreen.FinishFetch` | GAMETRAKER-Frontend/node_modules/publlic/pages/BibliotecaJuegos.js:39-60 | success stores the fetched data sorted by the current field and order; failure keeps the list and records the message; loading ends |
| `LibraryPage.LibraryScreen.HandleDelete` | GAMETRAKER-Frontend/node_modules/publlic/pages/BibliotecaJuegos.js:71-82 | the delete is sent exactly when confirmed, and a re-fetch follows exactly when it succeeded; no alert without confirmation, the success alert after a success and the error prefix followed by the message after a failure |
| `LibraryPage.LibraryScreen.View` | GAMETRAKER-Frontend/node_modules/publlic/pages/BibliotecaJuegos.js:84-114 | loading before a non-empty error before the list, an empty message being falsy; the no-games message exactly for an empty list |
| `StyledForm.InitialFormDataShape` | Frontend/public/pages/FormularioJuego.jsx:132-144 | status 'Pendiente', rating 0, hours 0, empty platform and genre arrays, empty texts |
| `StyledForm.Without` | Frontend/public/pages/FormularioJuego.jsx:177 | the filter never lengthens the array |
| `StyledForm.WithoutFacts` | Frontend/public/pages/FormularioJuego.jsx:177 | unchecking removes every occurrence of the value, keeps every other value as often as before and keeps their order |
| `StyledForm.TickUntick` | Frontend/public/pages/FormularioJuego.jsx:176-177 | checking then unchecking a value that was absent gives back the array |
| `StyledForm.HandleChange` | Frontend/public/pages/FormularioJuego.jsx:169-185 | only the named field changes; a non-checkbox stores the raw text; checking appends the value after the items of an array field, or after the characters of a text field, each character as a one-letter text; unchecking filters it out; checking a field that is neither array nor text, or unchecking one that is not an array, throws |
| `StyledForm.HandleStarClick` | Frontend/public/pages/FormularioJuego.jsx:187-192 | the `rating` key becomes the clicked index plus one and every other field keeps its value (its filled stars are stated by StarClickFills) |
| `StyledForm.FilledStarsCount` | Frontend/public/pages/FormularioJuego.jsx:343-347 | star i is filled exactly when i < rating, so a rating in 0..5 fills exactly that many stars |
| `StyledForm.StarClickFills` | Frontend/public/pages/FormularioJuego.jsx:187-192 | clicking star index 0..4 fills stars 0..index, index + 1 in all |
| `GameCard.InnerStars` | src/components/Tarjetajuego/TarjetaJuego.jsx:13-16 | five flags, star v filled exactly when v ≤ `hoverRating \|\| rating` |
| `GameCard.InnerStarsFill` | src/components/Tarjetajuego/TarjetaJuego.jsx:16 | a hover fills the stars up to it; with no hover a rating that reads as r fills exactly min(max(r,0),5) stars; a NaN rating fills none |
| `GameCard.CardStars.constructor` | src/components/Tarjetajuego/TarjetaJuego.jsx:9 | no hover |
| `GameCard.CardStars.MouseEnter` | src/components/Tarjetajuego/TarjetaJuego.jsx:18 | hover becomes the star unless read-only |
| `GameCard.CardStars.MouseLeave` | src/components/Tarjetajuego/TarjetaJuego.jsx:19 | hover resets to 0 unless read-only |
| `GameCard.CardStars.Click` | src/components/Tarjetajuego/TarjetaJuego.jsx:17 | the star is handed on exactly when not read-only |
| `GameCard.Property` | src/components/Tarjetajuego/TarjetaJuego.jsx:59 | reading a field of the server's answer: the field of an object, a TypeError exactly for null and undefined |
| `GameCard.ReturnedField` | src/components/Tarjetajuego/TarjetaJuego.jsx:58-59 | a non-ok response always ends in an error |
| `GameCard.Card.constructor` | src/components/Tarjetajuego/TarjetaJuego.jsx:28-32 | the game passed in, not loading, no error |
| `GameCard.Card.SyncGame` | src/components/Tarjetajuego/TarjetaJuego.jsx:35-52 | on a detail page with an id: fetch that game with loading on; otherwise take the game passed in |
| `GameCard.Card.FinishDetails` | src/components/Tarjetajuego/TarjetaJuego.jsx:37-46 | the fetched record replaces the game, or the error is kept; loading ends |
| `GameCard.Card.Apply` | src/components/Tarjetajuego/TarjetaJuego.jsx:59-66 | success patches only the one field, with the server's value, and notifies the parent when it listens; failure keeps the game and sets the error; loading ends |
| `GameCard.Card.ToggleCompleted` | src/components/Tarjetajuego/TarjetaJuego.jsx:54-67 | nothing without a game; otherwise requests the negation of `completed`, then patches or errs as in Apply |
| `GameCard.Card.RatingChange` | src/components/Tarjetajuego/TarjetaJuego.jsx:69-82 | nothing without a game or for the rating already held (`===`); otherwise requests the new rating, then patches or errs as in Apply |
| `GameCard.Card.HoursChange` | src/components/Tarjetajuego/TarjetaJuego.jsx:84-100 | nothing without a game or when `parseInt` gives NaN, a negative or the current value; otherwise requests the parsed hours, then patches or errs as in Apply |
| `GameCard.Card.View` | src/components/Tarjetajuego/TarjetaJuego.jsx:102-104 | on a detail page loading before error; then the game, or the not-found message without one |
| `GameCard.HoursGuard` | src/components/Tarjetajuego/TarjetaJuego.jsx:86-87 | typed integer text is acted on exactly when it is non-negative and differs from the stored hours; an empty input is ignored |
| `GameCard.ToggleBody` | src/components/Tarjetajuego/TarjetaJuego.jsx:58 | the toggle's body is the negated `completed` alone |
| `StarRating.SanitizedRating` | src/components/StarRating/StarRating.jsx:18 | a number is kept; NaN and anything that is not a number become 0 |
| `StarRating.ValueToCompare` | src/components/StarRating/StarRating.jsx:26 | the sanitised rating when read-only; otherwise the hover when set, else the sanitised rating |
| `StarRating.Row` | src/components/StarRating/StarRating.jsx:22-27 | star v of 1..n is filled exactly when v ≤ the compared value |
| `StarRating.RowCount` | src/components/StarRating/StarRating.jsx:27 | the number of filled stars is the compared value clamped to 0..n |
| `StarRating.StarRatingWidget.constructor` | src/components/StarRating/StarRating.jsx:6-7 | no hover |
| `StarRating.StarRatingWidget.Stars` | src/components/StarRating/StarRating.jsx:22-27 | five stars, each filled by the rule above on the widget's state |
| `StarRating.StarRatingWidget.SetReadOnly` | src/components/StarRating/StarRating.jsx:9-14 | becoming read-only resets the hover to 0 |
| `StarRating.StarRatingWidget.MouseEnter` | src/components/StarRating/StarRating.jsx:38-42 | hover becomes the star unless read-only |
| `StarRating.StarRatingWidget.MouseLeave` | src/components/StarRating/StarRating.jsx:43-47 | hover resets to 0 (when read-only it is already 0) |
| `StarRating.StarRatingWidget.Click` | src/components/StarRating/StarRating.jsx:33-37 | the star is forwarded exactly when not read-only and a handler is present |
| `StarRating.RestingStars` | src/components/StarRating/StarRating.jsx:18-27 | with no hover, a rating r in 0..5 fills exactly r stars and a non-number fills none |
| `StarRating.HoveredStars` | src/components/StarRating/StarRating.jsx:26-27 | while hovering, exactly the stars up to the hovered one are filled |
| `LibraryScreen.RemoveById` | src/components/Bibliotecajuegos/BibliotecaJuegos.jsx:34 | the filter never lengthens the list |
| `LibraryScreen.RemoveByIdRemoves` | src/components/Bibliotecajuegos/BibliotecaJuegos.jsx:34 | after the filter no game with that `_id` remains |
| `LibraryScreen.RemoveByIdKeeps` | src/components/Bibliotecajuegos/BibliotecaJuegos.jsx:34 | every other game stays, as often as before, in its original relative order |
| `LibraryScreen.RemoveByIdLength` | src/components/Bibliotecajuegos/BibliotecaJuegos.jsx:34 | exactly the matching games are dropped; with no match the list is unchanged |
| `LibraryScreen.Library.constructor` | src/components/Bibliotecajuegos/BibliotecaJuegos.jsx:8-10 | no games, loading, no error |
| `LibraryScreen.Library.BeginFetch` | src/components/Bibliotecajuegos/BibliotecaJuegos.jsx:13-17 | loading on, error cleared, list kept, the list request sent |
| `LibraryScreen.Library.FinishFetch` | src/components/Bibliotecajuegos/BibliotecaJuegos.jsx:16-23 | success replaces the list; failure keeps it and sets the error; loading ends |
| `LibraryScreen.Library.DeleteGame` | src/components/Bibliotecajuegos/BibliotecaJuegos.jsx:30-40 | nothing without confirmation; otherwise the delete is sent, success drops the game by id and failure keeps the list, sets the error and alerts |
| `LibraryScreen.Library.View` | src/components/Bibliotecajuegos/BibliotecaJuegos.jsx:42-56 | loading before error before the list; the empty message exactly for an empty list |
| `LibraryScreen.DeleteOutcome` | src/components/Bibliotecajuegos/BibliotecaJuegos.jsx:30-40 | an accepted delete leaves no game with the id and every other game in order; a refused one gives the fixed delete error |
| `GamesApi.ReadBody` | src/api/games.js:7 | `response.json()` gives a value exactly when the body decodes |
| `GamesApi.Checked` | src/api/games.js:6-7 | a non-ok response throws the helper's message; an ok one gives its body |
| `GamesApi.FixedMessages` | src/api/games.js:4-53 | each helper throws its own fixed message on a non-ok response and returns the body on an ok one |
| `GamesApi.NumberIfDefined` | src/api/games.js:31-32 | undefined stays undefined; anything else becomes a number (or NaN) |
| `GamesApi.UpdatePayload` | src/api/games.js:29-33 | `rating` and `hoursPlayed` are converted when defined and undefined otherwise; every other field is copied |
| `GamesApi.UpdateGameResult` | src/api/games.js:40-44 | an ok response gives the body; a non-ok one always throws |
| `GamesApi.UpdateErrorUsesServerMessage` | src/api/games.js:40-43 | on a refused update the error is the server's `message` when it is non-empty text, and the default text when the message is falsy |
| `GamesApi.UpdateWireBody` | src/api/games.js:35-39 | the JSON body drops undefined rating/hours, writes NaN as null and copies every other field |
| `GamesApi.SingleFieldBodies` | src/api/games.js:56-66 | each single-field helper sends a PUT to `/games/<id>` whose body holds only its field: `completed` as a boolean, `rating` or `hoursPlayed` as a number |
| `CardDisplay.Count` | Frontend/public/componets/CardJuego.js:13 | `repeat`'s count: a non-negative number is itself, NaN is 0, a negative number is a RangeError |
| `CardDisplay.FiveMinus` | Frontend/public/componets/CardJuego.js:13 | `5 - x` is a number or NaN |
| `CardDisplay.RenderStarsInRange` | Frontend/public/componets/CardJuego.js:12-14 | a score s in 0..5 gives five symbols: s full stars, then 5 - s empty ones |
| `CardDisplay.RenderStarsFalsy` | Frontend/public/componets/CardJuego.js:13 | a falsy score renders as five empty stars |
| `CardDisplay.RenderStarsOutOfRange` | Frontend/public/componets/CardJuego.js:13 | a score below 0 or above 5 throws |
| `CardDisplay.RenderStarsOfText` | Frontend/public/componets/CardJuego.js:13 | a score stored as its decimal text renders like the number |
| `CardDisplay.StatusClass` | Frontend/public/componets/CardJuego.js:17 | a class exactly for a text status; any other value throws |
| `CardDisplay.StatusClassShape` | Frontend/public/componets/CardJuego.js:17 | "status-" then the status lowercased with each white-space character turned into '-', so the suffix has no capitals and no white space, whatever the case of the status |
| `CardDisplay.DisplayGates` | Frontend/public/componets/CardJuego.js:31-44 | score and hours lines exactly for a positive number (or its text); missing or null hides them; the genre line exactly for non-empty genre text |
| `CardDisplay.ShownScoreRenders` | Frontend/public/componets/CardJuego.js:35-39 | a shown score 1..5 renders as its stars, a score ≤ 0 hides the line, a score above 5 shows a line that throws |
| `GameDetail.DetailScreen.constructor` | Frontend/public/pages/GameDetail.js:10-17 | no game or reviews, both loading, no error, no review being edited |
| `GameDetail.DetailScreen.View` | Frontend/public/pages/GameDetail.js:100-119 | loading before error, error before a missing game, then the detail with the card lines and the reviews part |
| `GameDetail.DetailScreen.BeginGameFetch` | Frontend/public/pages/GameDetail.js:24-26 | game loading on, error cleared |
| `GameDetail.DetailScreen.FinishGameFetch` | Frontend/public/pages/GameDetail.js:27-35 | the fetched game is stored, or the message is recorded; game loading ends |
| `GameDetail.DetailScreen.BeginReviewsFetch` | Frontend/public/pages/GameDetail.js:39-40 | reviews loading on, the error left as it was |
| `GameDetail.DetailScreen.FinishReviewsFetch` | Frontend/public/pages/GameDetail.js:41-49 | success stores the reviews; failure writes the shared error, so the whole page shows it in place of the game |
| `GameDetail.DetailScreen.DeleteGame` | Frontend/public/pages/GameDetail.js:57-68 | the prompt names the game; navigation to '/' exactly when confirmed and the delete succeeded; a failure alerts its message |
| `GameDetail.DetailScreen.ReviewSaved` | Frontend/public/pages/GameDetail.js:74-77 | reviews are fetched again and no review stays in editing |
| `GameDetail.DetailScreen.DeleteReview` | Frontend/public/pages/GameDetail.js:79-90 | a re-fetch exactly when confirmed and the delete succeeded; a failure alerts its message |
| `GameDetail.DetailScreen.EditReview` | Frontend/public/pages/GameDetail.js:92-94 | the review id is remembered for editing |
| `GameDetail.DetailScreen.CancelEditReview` | Frontend/public/pages/GameDetail.js:96-98 | editing ends |
| `GameDetail.DetailLines` | Frontend/public/pages/GameDetail.js:117-119 | on the detail a score 1..5 shows its five-symbol stars, a score ≤ 0 and hours ≤ 0 hide their lines, and a text status gets its class |
| `DetailDraft.RatingOptionsExact` | Frontend/public/pages/Gamedeatil.jsx:189 | the selector offers each of 0..5 once, in increasing order |
| `DetailDraft.JoinList` | Frontend/public/pages/Gamedeatil.jsx:139-140 | `join` gives text exactly for an array; anything else throws |
| `DetailDraft.JoinCommaSpace` | Frontend/public/pages/Gamedeatil.jsx:139-140 | joining comma-free texts with ", " can be undone: splitting at the commas gives the first text and each other one behind its blank |
| `DetailDraft.JoinedList` | Frontend/public/pages/Gamedeatil.jsx:139-140 | an array of texts is shown as those texts joined with ", " |
| `DetailDraft.ReviewLines` | Frontend/public/pages/Gamedeatil.jsx:164-166 | one line per review, in order, with the stars of its rating |
| `DetailDraft.DraftScreen.constructor` | Frontend/public/pages/Gamedeatil.jsx:11-18 | no game or reviews, both loading, no error, no review being edited |
| `DetailDraft.DraftScreen.ReviewsSection` | Frontend/public/pages/Gamedeatil.jsx:160-174 | loading message exactly while loading; the no-reviews message exactly when not loading with zero reviews; otherwise the list |
| `DetailDraft.DraftScreen.View` | Frontend/public/pages/Gamedeatil.jsx:126-143 | `loadingGame` before `error`, `error` before a missing game; the detail joins platforms and genres with ", " and shows the rating's stars |
| `DetailDraft.DraftScreen.ButtonLabel` | Frontend/public/pages/Gamedeatil.jsx:192 | the update label exactly while a review is being edited, the publish label otherwise |
| `DetailDraft.DraftScreen.BeginGameFetch` | Frontend/public/pages/Gamedeatil.jsx:21-23 | game loading on, error cleared |
| `DetailDraft.DraftScreen.FinishGameFetch` | Frontend/public/pages/Gamedeatil.jsx:24-50 | the loaded game is stored, or the fixed load message is recorded; game loading ends |
| `DetailDraft.DraftScreen.BeginReviewsFetch` | Frontend/public/pages/Gamedeatil.jsx:54-55 | reviews loading on |
| `DetailDraft.DraftScreen.FinishReviewsFetch` | Frontend/public/pages/Gamedeatil.jsx:56-70 | success stores the reviews; failure is only logged, so list and error stay |
| `DetailDraft.DraftScreen.DeleteGame` | Frontend/public/pages/Gamedeatil.jsx:82-94 | the prompt names the game; a confirmed delete alerts and leaves for '/' |
| `DetailDraft.DraftScreen.EditReview` | Frontend/public/pages/Gamedeatil.jsx:121-123 | the review is remembered for editing |
| `DetailDraft.DraftScreen.AddOrUpdateReview` | Frontend/public/pages/Gamedeatil.jsx:100-105 | editing ends and the reviews are fetched again |
| `DetailDraft.DraftScreen.DeleteReview` | Frontend/public/pages/Gamedeatil.jsx:107-119 | a confirmed delete alerts and re-fetches the reviews |
| `DetailDraft.EditThenSave` | Frontend/public/pages/Gamedeatil.jsx:100-123 | editing a review switches the button to its update label; saving switches it back and starts a new reviews fetch |
| `Text.Trim` | Frontend/public/pages/FormularioJuego.js:65 | `trim` gives empty exactly for all-white-space text; otherwise the text between the leading and trailing white space, starting and ending with a non-space |
| `Text.TrimIdempotent` | Frontend/public/pages/EstadisticasPersonales.js:39 | trimming twice is trimming once |
| `Text.TrimKeeps` | Frontend/public/pages/EstadisticasPersonales.js:39 | every character of the trimmed text was in the input |
| `Text.ToLowerIdempotent` | Frontend/public/componets/CardJuego.js:17 | lowercasing twice is lowercasing once |
| `Text.Split` | Frontend/public/pages/EstadisticasPersonales.js:39 | `split` gives at least one piece and no piece holds the separator |
| `Text.SplitJoin` | Frontend/public/pages/EstadisticasPersonales.js:39 | splitting and joining back with the same separator gives the original text |
| `Text.Repeat` | Frontend/public/componets/CardJuego.js:13 | `c.repeat(n)` is n copies of c |
| `Numerals.ParseIntRoundTrip` | src/components/Tarjetajuego/TarjetaJuego.jsx:86 | `parseInt` reads back the decimal text of every integer |
| `Numerals.StringToNumberRoundTrip` | Frontend/public/pages/FormularioJuego.js:55 | `Number` reads back the decimal text of every integer |
| `Numerals.ParseIntAgreesWithLiteral` | src/components/Tarjetajuego/TarjetaJuego.jsx:86 | on the decimal text of an integer `parseInt` and `Number` agree |
| `Numerals.TextToNumber` | Frontend/public/pages/FormularioJuego.js:55 | text made only of white space reads as 0 |
| `Numerals.DecimalAgreesWithInteger` | Frontend/public/pages/FormularioJuego.js:55 | on an integer literal the decimal reading gives that integer |
| `Numerals.TextToNumberAgrees` | Frontend/public/pages/FormularioJuego.js:55 | wherever the integer reading of `Number` succeeds, the decimal reading gives the same value |
| `Numerals.TextToNumberRoundTrip` | Frontend/public/pages/FormularioJuego.js:55 | `Number` reads back the decimal text of every integer as that number |
| `Numerals.PointLiteral` | Frontend/public/pages/FormularioJuego.js:55 | digits, a point and digits read as the integer part plus the fraction digits over the matching power of ten |
| `Numerals.ExponentLiteral` | Frontend/public/pages/FormularioJuego.js:55 | digits, an exponent mark and an integer read as the digits scaled by that power of ten |
| `Numerals.FractionExample` | Frontend/public/pages/FormularioJuego.js:55 | "7.5" reads as 7.5 |
| `Numerals.HalfExample` | Frontend/public/pages/FormularioJuego.js:55 | "4.5" reads as 4.5 |
| `Numerals.NegativeFractionExample` | Frontend/public/pages/FormularioJuego.js:55 | "-1.5" reads as -1.5 |
| `Numerals.ZeroFractionExample` | Frontend/public/pages/FormularioJuego.js:55 | "2.0" reads as 2 |
| `Numerals.ExponentExample` | Frontend/public/pages/FormularioJuego.js:55 | "1e1" reads as 10 |
| `Numerals.TwoPointsExample` | Frontend/public/pages/FormularioJuego.js:55 | "1.2.3" is not a number |
| `JsValue.Or` | Frontend/public/pages/EstadisticasPersonales.js:35 | `a \|\| b` is a when a is truthy and b otherwise |
| `JsValue.ToNumberIdempotent` | src/api/games.js:61 | converting a number again leaves it unchanged |
| `JsValue.ToNumberOfString` | src/components/Tarjetajuego/TarjetaJuego.jsx:70 | `Number(String(n))` is n |
| `JsValue.JsonFields` | src/api/games.js:38 | `JSON.stringify` drops undefined properties and writes NaN as null, copying the rest |
| `Ordering.CompareFacts` | GAMETRAKER-Frontend/node_modules/publlic/pages/BibliotecaJuegos.js:49-51 | the comparator is 0 exactly on equal keys, antisymmetric, inverted by the direction, and its sign follows `<` |
| `Ordering.PrecedesTotalPreorder` | GAMETRAKER-Frontend/node_modules/publlic/pages/BibliotecaJuegos.js:49-51 | "may go first" is total and transitive, as `Array.prototype.sort` requires |
| `Ordering.SortCorrect` | GAMETRAKER-Frontend/node_modules/publlic/pages/BibliotecaJuegos.js:42-52 | the stable sort returns a permutation of its input, ordered by the comparator, with equal keys in input order |

## Left out

- Network I/O is not modelled: `fetch`, JSON decoding, the base URL and request headers. A response is its `ok` flag plus an already decoded body. Frontend/public/api/gameService and src/api/reviews.js are not part of this model. Their calls are results given to the methods.
- Overlapping fetches and React's scheduling are not modelled. Each handler runs to completion with its awaited outcome given.
- `window.confirm`, `alert`, `console.error` and `navigate` are booleans or returned values. Nothing is displayed.
- Rendering is not modelled: markup, CSS classes other than the status class, cover images and links. Only which parts appear and the values they show are modelled.
- The form's number fields read decimal text with a fraction and an exponent as a real number. Hexadecimal, binary and octal literals, `Infinity` and `-0` are not modelled, because the form's range checks do not depend on them. Every other number in the model, including JSON bodies and `parseInt`, is an integer.
- GameForm.Change: a number field holding `Infinity` or a hexadecimal, binary or octal literal stores NaN, which passes both range checks. JavaScript would read the number and check it.
- LibraryPage.CompareGames: a game without a title or release date is read with the empty text there, so it compares as the smallest text. In JavaScript `undefined` would make both comparisons false and the game would compare 0.
- Statistics.Statuses: a game without a status is counted under the empty text. JavaScript would use the key "undefined".
- Ordering.StrLt: texts compare by code point. JavaScript compares UTF-16 code units, which differs only between characters above U+FFFF and characters from U+E000 to U+FFFF.
- Date formatting is not modelled (`toISOString`, `toLocaleDateString`), because it is library and locale behaviour. GameForm.FormScreen.FinishLoad stores the loaded record without reshaping `releaseDate`.
- The placeholder records of Frontend/public/pages/Gamedeatil.jsx and Frontend/public/pages/FormularioJuego.jsx are not written out. A load is a given result, so the model also keeps the failure path the code spells out.
- The mock statistics and chart setup of Frontend/public/pages/EstadisticasPersonales.jsx, the `src` statistics wrapper and GAMETRAKER-Frontend/node_modules/publlic/componets/CardJuego.jsx are presentation only and are not modelled.
- Routing (src/App.jsx, src/main.jsx, Frontend/public/pages/NotFound.js) is not modelled.
- GameForm.FormScreen.FinishLoad: the loaded record is taken to hold text in `title` and `platform`. In JavaScript a loaded record where either is missing, `null` or not a string makes `trim()` throw a TypeError in `handleSubmit`. That happens after `submitting` is set and outside the `try`, so the handler rejects, `submitting` stays true, no message is set and nothing is sent. The model does not capture this.
- GameRecord.Game: `score` and `hoursPlayed` are non-negative integers, because the form rejects negative hours and scores below 1, and the card rejects negative hours. A record with negative numbers written to the server by other means is not modelled. Neither is a fractional score or number of hours, which the form can send. For such a record Statistics.TotalHoursFacts' bound of each game's hours by the total would not hold.
- Statistics.TallyCounts: the counters are modelled as plain maps that start empty. In JavaScript they start from `{}`, which inherits the keys of `Object.prototype`. A status, genre or platform such as "constructor", "toString" or "valueOf" would start from an inherited function instead of 0, and the count stored would not be a number. An assignment to "__proto__" would be ignored, so that key would never be listed.
- Statistics.BumpFacts: a new key starts from 0 only for keys that `Object.prototype` does not define, because of the inherited keys named on the line above.
- Statistics.Entries: JavaScript lists integer-like object keys first in ascending order. The model keeps plain insertion order, which is only exact for keys that are not integer-like.
- LibraryPage.SortGames: the comparator returns 0 whenever a game has no score, so it is not a consistent comparator. The order JavaScript then produces is implementation-defined. The model places such a game as if it scored 0.
- Ordering.KeyLt: a number is put before a string. The source never mixes the two in one sort field, and JavaScript's `<` between them would convert the string.
- Text.ToLower: case mapping covers ASCII and Latin-1 only, because there is no Unicode table.
- CardDisplay.StatusClass: a TypeError is modelled by a fixed message text, not the engine's exact wording. The same goes for the other TypeError and RangeError texts.
- GamesApi.AsRecord: a game body that is truthy but not an object is treated as no game.
- LibraryScreen.Library.FinishFetch: the fetched body is taken to be an array of game objects. A body that is not an array, where `games.map` would throw, and a `null` element, where `game._id` would throw, are not modelled.
- LibraryScreen.Library.DeleteGame: it filters the list as it is when the delete returns. The stale copy a React closure might capture is not modelled.
- StarRating.StarRatingWidget.MouseEnter: the caller must pass a star in 1..5, which are the only values the widget renders.
