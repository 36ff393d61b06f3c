# Party-game score counter: session model

This project models the game session of a single-screen party-game score counter,
the `App` component in `src/App.jsx`. The session goes through three phases:

- **Setup.** The players choose a count from 2 to 10 and enter a name for each player.
- **Playing.** A timed round runs. Each tap on a player's button gives that player one point.
- **Finished.** The players with the lowest score win. A leaderboard lists everyone in ascending order of score.

The model is in five modules:

- `Wrappers` (`wrappers.dfy`): `Option`, which stands for JavaScript `null` versus a value.
- `Text` (`text.dfy`): `String.prototype.trim` over the ECMAScript white-space and line-terminator characters, and the blank-name test `name.trim() === ''`.
- `Clock` (`clock.dfy`): `formatTime`. It shows whole seconds as `MM:SS`, with each part zero-padded to at least two digits.
- `Scores` (`scores.dfy`): the `{ name, score }` player record, the lowest score, the winners (a filter at the lowest score), and the ascending stable sort for the final scores.
- `Game` (`session.dfy`): the component state as the class `Session`. Each event handler is a method on it.
  - `Valid()` is the invariant every handler keeps:
    - 2 ≤ `numPlayers` ≤ 10, and the name list has exactly that length;
    - setup has no players and no elapsed time;
    - a started round has one player per name, with non-empty, trimmed names;
    - while a round is being played, its players are in entry order, and each one is named by the trimmed name entered for them;
    - `winner` is set exactly when the round is finished, and it then equals the lowest-score players.
  - Client methods drive a whole round through the handlers, from a fresh session back to setup. `PlayWholeRound` chains them.

### The final-scores sort reorders the players

The code at `src/App.jsx:268-269` calls `players.sort(...)` during render. That sorts the state array itself, even though the list is only displayed, so `Session.SortFinalScores` reorders `players`. The model proves that this keeps the winners unchanged (`Scores.SortKeepsWinners`), so the invariant still holds after the sort.

### Handler preconditions

The source has no phase guards. Each handler can only be reached from one screen, and the model states that as a `requires`:

- the count input, the name inputs and Start Game appear only on the setup screen (`src/App.jsx:176-211`);
- the point buttons and End Game appear only on the playing screen (`src/App.jsx:227-242`);
- the interval runs only while playing (`src/App.jsx:29-36`);
- the sorted final scores appear only on the finished screen (`src/App.jsx:249-275`);
- Play Again, which resets, appears on the finished screen (`src/App.jsx:282`). `ResetGame` is not restricted to it, because it keeps the invariant from any phase.

A name can only be edited through an input that exists for that index (`src/App.jsx:195-201`), so `SetPlayerName` requires an index below the list's length. Because the count and the names can change only in setup, they stay fixed for the whole round.

## Model

| member | source | states |
|---|---|---|
| Text.TrimStartCorrect | src/App.jsx:68 | leading-trim removes exactly a white-space prefix, and what remains is empty or does not start with white space |
| Text.TrimEndCorrect | src/App.jsx:68 | trailing-trim removes exactly a white-space suffix, and what remains is empty or does not end with white space |
| Text.TrimCorrect | src/App.jsx:68 | `trim()` returns a contiguous slice of its input; everything before and after it is white space; the slice is empty or starts and ends with a non-white character |
| Text.BlankIffAllWhitespace | src/App.jsx:61 | `name.trim() === ''` holds exactly when every character of the name is white space |
| Text.TrimIdempotent | src/App.jsx:68 | trimming an already trimmed name changes nothing, so stored player names are in trimmed form |
| Text.TrimExamples | src/App.jsx:68 | " B " trims to "B", and "A", "C", "D" stay as they are; "" and a run of spaces and a tab are blank, and " B " is not |
| Clock.DigitsCorrect | src/App.jsx:172 | `toString()` of a non-negative integer gives decimal digits with no leading zero whose value is the number; there is one digit exactly when the number is below 10, and at most two below 100 |
| Clock.Pad2Correct | src/App.jsx:172 | `padStart(2, '0')` of the digits puts one `'0'` before a single digit and leaves two or more digits as they are; the result is at least two digits with the same value, exactly two below 100, and ends with the unpadded digits, so nothing is truncated |
| Clock.FormatTimeShape | src/App.jsx:169-173 | the display is minutes, a colon, then seconds; the seconds part is exactly two digits worth `seconds % 60`; the minutes part is worth `floor(seconds / 60)`, is exactly two digits below 100 minutes and otherwise exactly the unpadded digits (no extra zeros), and ends with its full unpadded digits |
| Clock.FormatTimeRoundTrip | src/App.jsx:169-173 | reading the display back, minutes × 60 + seconds equals the elapsed seconds |
| Clock.FormatTimeInjective | src/App.jsx:169-173 | different elapsed times give different displays |
| Clock.FormatTimeExamples | src/App.jsx:169-173 | 125 shows as "02:05", 59 as "00:59", 0 as "00:00" and 6005 as "100:05" |
| Scores.MinScore | src/App.jsx:89 | `Math.min` over the scores of a non-empty list is a score some player has, and no player has a lower one |
| Scores.WithScoreCorrect | src/App.jsx:90 | the filter on one score keeps only players with that score, and keeps each of them as often as they occur in the list |
| Scores.WithScoreAppend | src/App.jsx:90 | filtering a concatenation gives the two filtered parts concatenated, so the filter keeps entry order |
| Scores.WinnersCorrect | src/App.jsx:89-90 | the winners are never empty; all of them have the lowest score; no player scored less; every player with the lowest score is among them |
| Scores.WinnersExample | src/App.jsx:89-90 | scores 3, 1, 1, 5 make the players at indices 1 and 2 the winners |
| Scores.SortByScoreSorted | src/App.jsx:269 | the leaderboard is in ascending order of score |
| Scores.SortByScorePermutes | src/App.jsx:269 | the leaderboard holds exactly the same players, as a multiset |
| Scores.SortByScoreStable | src/App.jsx:269 | for every score, the players with that score keep their entry order in the leaderboard |
| Scores.SortedUnique | src/App.jsx:269 | two ascending lists that agree, score by score and in order, on which players have it are equal |
| Scores.StableSortIsSortByScore | src/App.jsx:269 | any ascending arrangement that keeps entry order among equal scores is the leaderboard; the result does not depend on how the sort is carried out |
| Scores.SortKeepsWinners | src/App.jsx:268-269 | sorting the players changes neither the lowest score nor the winners |
| Scores.LeaderboardKeeps | src/App.jsx:268-269 | the leaderboard has as many players as were sorted, each of them one of those players, and the same winners |
| Scores.LeaderboardExample | src/App.jsx:268-269 | A(3), B(1), C(1), D(5) sort to B(1), C(1), A(3), D(5) |
| Scores.SortPlayers | src/App.jsx:269 | the step-by-step sort returns the leaderboard, which the lemmas above show is sorted, a permutation and stable |
| Game.AnyBlank | src/App.jsx:61 | `some(name => name.trim() === '')` is true exactly when some index holds a blank name |
| Game.AnyBlankExample | src/App.jsx:61 | "A", " B ", "C", "D" has no blank name, and "A", "" has one |
| Game.InitialPlayers | src/App.jsx:67-70 | one player per name, in entry order, named by the trimmed name, each with score 0 |
| Game.InitialPlayersExample | src/App.jsx:67-70 | the names "A", " B ", "C", "D" give players A, B, C, D at score 0 |
| Game.PlayersNamedInOrder | src/App.jsx:67-70 | when the players' names are the entered names trimmed, as the invariant keeps them during a round, then there is one player per name and the player at each index has the trimmed name from that index |
| Game.Session.constructor | src/App.jsx:5-10 | the initial state is setup, with 2 players, names `['', '']`, no players, timer 0 and no winner |
| Game.Session.SetPlayerCount | src/App.jsx:17-51 | in setup only: the count handler (lines 46-51) with the resize effect (lines 17-25): a count from 2 to 10 is taken and any other count leaves the old one; the name list then has exactly the count's length, its first min(old, new) entries are kept, entries beyond the old length are `''` and extra entries are cut off; nothing else changes |
| Game.Session.SetPlayerName | src/App.jsx:53-57 | in setup only: the raw text is stored at the index, untrimmed; nothing else changes |
| Game.Session.StartGame | src/App.jsx:59-75 | the start succeeds exactly when no name is blank; on failure the phase stays setup and players and timer are unchanged; on success the players are `InitialPlayers` of the names (one per name, with the trimmed name and score 0), the timer is 0 and the phase is playing |
| Game.Session.RecordPoint | src/App.jsx:77-85 | the tapped player's score goes up by exactly 1, with the name kept; every other player, the length, the timer, the phase and the names are unchanged |
| Game.Session.Tick | src/App.jsx:29-32 | while playing, one interval firing increases the timer by exactly 1 and changes nothing else |
| Game.Session.EndGame | src/App.jsx:87-93 | the phase becomes finished, and the winner is exactly the lowest-score players in entry order; it is non-empty and all its members share the lowest score; players, timer and names are unchanged |
| Game.Session.ResetGame | src/App.jsx:99-105 | back to setup with no players, timer 0 and no winner; the count is unchanged, and there are that many `''` names |
| Game.Session.SortFinalScores | src/App.jsx:268-269 | on the finished screen, the players are reordered into the leaderboard (ascending, the same multiset) and the invariant holds, winners included; nothing else changes |
| Game.ChooseCount | src/App.jsx:46-64 | a new session in setup with count 4, four `''` names, no players and timer 0; on the way a count of 11 is ignored and a start with the names still empty is refused, which the body asserts |
| Game.EnterNames | src/App.jsx:53-57 | the names "A", " B ", "C", "D" are stored as typed, in a new session |
| Game.SetUpRound | src/App.jsx:59-75 | those names start a round with A, B, C, D at score 0 and timer 0, in a new session |
| Game.Tap | src/App.jsx:77-85 | `count` taps on one button raise that player's score by `count` and change no other player, the timer or the count |
| Game.PlayTaps | src/App.jsx:77-85 | `taps[i]` taps on each player's button raise each player's score by exactly `taps[i]`, with names kept |
| Game.PlayRound | src/App.jsx:29-32 | a tick, taps 3, 1, 1 and 5 times and another tick give scores 3, 1, 1, 5 and timer 2 |
| Game.FinishRound | src/App.jsx:87-105 | ending that round makes B and C the winners; the final scores are B, C, A, D; a reset leaves four `''` names in setup |
| Game.PlayWholeRound | src/App.jsx:46-105 | the whole round, from a fresh session: B and C win, and the final scores are B, C, A, D |

## Left out

- Audio (`playDoorbellSound`, `playCelebrationSound`, `src/App.jsx:107-167`): Web Audio synthesis with floating-point frequencies and gains and `setTimeout` scheduling. When it returns normally it changes no session state, so the handlers that trigger it do not model the call. See the `Game.Session.RecordPoint` line below for when it throws.
- Interval scheduling and cleanup (`setInterval`, `clearInterval` and the effect teardown, `src/App.jsx:28-44`): asynchronous runtime behaviour. Only one firing is modelled, as `Tick`.
- Rendering (`src/App.jsx:175-290`) apart from the final-scores sort. The `alert` on a refused start (`src/App.jsx:62`) becomes the `false` result of `StartGame`.
- `parseInt` of the count input (`src/App.jsx:47`): the input is an integer, and NaN is covered by the "any other count is ignored" case.
- React render timing and state batching: the resize effect (`src/App.jsx:17-25`) runs after the render that follows the count change. The model does both in `SetPlayerCount`.
- Game.Session.SortFinalScores: the source sorts the `players` array in place. The model reassigns the `players` field with the sorted sequence, so it does not capture the array's identity or any other reference to it.
- Scores.SortPlayers: the engine's own sort algorithm is not modelled. `Scores.StableSortIsSortByScore` shows that every stable ascending sort gives the same leaderboard, since the comparator `a.score - b.score` orders by score only and ECMAScript requires `sort` to be stable.
- Game.Session.RecordPoint: the model assumes that the doorbell sound (`src/App.jsx:79`) returns normally. It runs before the increment (`src/App.jsx:82-84`). When `new (window.AudioContext || window.webkitAudioContext)()` (`src/App.jsx:109`) throws, for example because neither constructor exists, the handler stops and the source does not record the point. `endGame` calls its sound only after setting the state (`src/App.jsx:92-96`), so it is unaffected.
- Game.Session.RecordPoint: `newPlayers[index].score += 1` also changes the player object that the previous `players` array shares. Nothing reads the previous array afterwards, so the model treats players as values.
- Text.IsWhitespace: it lists the white-space and line-terminator characters of the ECMAScript grammar, with the Unicode "Zs" category written out as a fixed list. A later revision of Unicode is not tracked.
- Scores and the timer are unbounded natural numbers. JavaScript numbers lose integer precision above 2^53, which a round cannot reach.
