# Planning-poker room and backlog, modelled in Dafny

This project models the local state of one planning-poker estimation room and the story
backlog shown beside it.

- **Room.** A room holds a list of participants. Each has an id, a name, a voted flag, a
  selected card and an observer flag. The room also holds the current user's own card, a
  reveal flag and the results snapshot taken at reveal.
- **Room handlers.** Joining, adding the two demo participants, selecting a card, clearing
  a vote, revealing, starting a new round and the keyboard shortcuts are methods of the
  class `Room.Room`.
- **Room list updaters.** The `map`/`filter` updaters those handlers apply are pure
  functions with lemmas.
- **Backlog.** The backlog is a list of stories (id, title, points, completed) plus the
  index of the current story. Its handlers are methods of `Backlog.VotingSession`, and
  its list transformations are functions.
- **Consensus.** The calculator turns the revealed votes into one estimate. It is a pure
  function over exact reals. It drops `?` and `coffee`, reads `1/2` as 0.5, takes the mean
  and snaps it to the nearest value of 0.5, 1, 2, 3, 5, 8, 13, 20, 40, 100, with ties
  going to the earlier value.

Files:

- `nullable.dfy`: `Option`, which stands for JavaScript `null` (and `NaN` from
  `parseFloat`).
- `js_array.dfy`: `filter`, `map` and `every` on sequences, with their algebra:
  concatenation, idempotence and permutation invariance.
- `js_string.dfy`: `trim` over the ECMAScript white-space and line-terminator characters,
  `includes`, string `<`, single-letter `toLowerCase` comparison, and the leading-digit
  prefix that `parseInt`/`parseFloat` read.
- `cards.dfy`: the deck `cardValues`, its labels and the number each card's label parses
  to.
- `consensus.dfy`: `calculateAverage` and the copy of it inside the room view.
- `room.dfy`: the room's users, the updaters, the key rules and the `Room` class.
- `backlog.dfy`: stories, the backlog list operations and the `VotingSession` class.

Design points:

- The keyboard handler runs four separate `if`s against one snapshot of the state.
  `KeyRulesExclusive` shows that at most one of them matches any key. So the model
  applies a single rule, `KeyRule`, and this loses nothing.
- Story ids are `length + 1` and are not unique. After a delete, a new story can reuse an
  id that is still in use. Deleting that id then removes every story carrying it.
  `RepeatedIdEmptiesBacklog` exhibits a sequence in which this empties the backlog, even
  though each delete happened while more than one story was listed.
- When the backlog is empty, submitting or completing writes to slot 0 of an empty array.
  In the source the new object spreads `undefined`, so it gets no id. This is why
  `Story.id` is an `Option`.
- The demo participants are added without a vote. Right after they are added,
  `allVotesIn` is false, so the reveal shortcut cannot fire (`DemoUsersBlockAllVotesIn`).
  Selecting, clearing and resetting keep them unvoted, as long as the current user's id
  is not `demo1` or `demo2` (`DemoUsersStayUnvoted`). The random id is not excluded from
  those two values.
- The votes are halves and small integers. The mean is compared to the scale with exact
  arithmetic. An exact tie between two scale values is also exact in IEEE doubles, and any
  other mean is far from a midpoint compared with rounding error. So `real` gives the same
  answers as the browser.

## Model

| member | source | states |
|---|---|---|
| JsArray.Filter | src/app/components/Room.js:40 | `filter` keeps exactly the elements that pass the predicate, and never lengthens the list |
| JsArray.Map | src/app/components/Room.js:109-113 | `map` keeps the length and transforms each position independently |
| JsArray.Every | src/app/components/Room.js:64 | `every` is true iff every element passes, so it is true on an empty list |
| JsArray.FilterKeepsAll | src/app/components/VotingSession.js:86 | a filter returns the list unchanged, or equally keeps its length, iff every element passes |
| JsArray.FilterPermutation | src/app/components/VotingSession.js:109 | filtering permuted inputs gives permuted outputs |
| JsArray.MapPermutation | src/app/components/VotingSession.js:110 | mapping permuted inputs gives permuted outputs |
| JsString.TrimStart | src/app/components/VotingSession.js:46 | strips exactly the leading white space and leaves a suffix of the input |
| JsString.TrimEnd | src/app/components/VotingSession.js:46 | strips exactly the trailing white space and leaves a prefix of the input |
| JsString.Trim | src/app/components/VotingSession.js:46 | `trim()`; its shape is proved in `JsString.TrimIsMiddle` |
| JsString.Includes | src/app/components/Room.js:54 | `includes`; its meaning is proved in `JsString.IncludesIff` |
| JsString.StrLess | src/app/components/Room.js:73 | the `<` order on strings that the digit test uses |
| JsString.LowerCaseIs | src/app/components/Room.js:80-90 | for r, n and c, the letters the shortcuts compare, a key lower-cases to the letter iff it is that letter or its capital |
| JsString.TrimIsMiddle | src/app/components/VotingSession.js:49 | `trim()` is a contiguous slice of the input, all of whose surroundings are white space, and which neither starts nor ends with white space |
| JsString.TrimEmptyIff | src/app/components/VotingSession.js:46 | the trimmed input is empty iff every character is white space (the gate of handleAddNewStory) |
| JsString.TrimIdempotent | src/app/components/VotingSession.js:72 | trimming an already trimmed title changes nothing |
| JsString.IncludesIff | src/app/components/Room.js:54 | `includes(t)` holds iff `t` occurs at some position |
| JsString.LeadingDigits | src/app/components/Room.js:74 | the digit prefix is the longest run of decimal digits at the start |
| JsString.ParseDecimalPrefix | src/app/components/Room.js:74 | `parseInt` yields a number iff the key begins with a digit |
| JsString.ParseSingleDigit | src/app/components/Room.js:74 | `parseInt` of a one-digit key is that digit's value |
| Cards.CardValues | src/app/components/Room.js:8 | the twelve cards of `cardValues`, in deck order |
| Cards.Label | src/app/components/Room.js:8 | each card's string in `cardValues`, from `1/2` to `coffee` |
| Cards.LabelInjective | src/app/components/Room.js:8 | distinct cards carry distinct labels, so a vote value names one card |
| Cards.CardValuesIsDeck | src/app/components/Room.js:8 | every card occurs exactly once in `cardValues` |
| Cards.VoteNumber | src/app/components/VotingSession.js:110 | the number a vote counts as; proved equal to the card's points in `Cards.VoteNumberIsPoints` |
| Cards.VoteNumberIsPoints | src/app/components/VotingSession.js:110 | the number a voted card contributes is its point value; `?` and `coffee` parse to nothing |
| Cards.HalfLabelParsesAsOne | src/app/components/VotingSession.js:110 | `parseFloat('1/2')` would be 1, which is why `1/2` is mapped to 0.5 before parsing |
| Consensus.FibSequence | src/app/components/VotingSession.js:118 | the scale 0.5, 1, 2, 3, 5, 8, 13, 20, 40, 100 that the mean snaps to |
| Consensus.NumericVotes | src/app/components/VotingSession.js:108-111 | the filter, map and filter pipeline; its members are proved in `Consensus.NumericVotesMembers` |
| Consensus.Sum | src/app/components/VotingSession.js:115 | the `reduce` sum; proved order-independent in `Consensus.SumPermutation` |
| Consensus.Mean | src/app/components/VotingSession.js:115 | the sum divided by the number of numeric votes |
| Consensus.NumericVotesMembers | src/app/components/VotingSession.js:108-111 | a number is among the numeric votes iff some result holds a counted card whose label parses to it |
| Consensus.NumericVotesConcat | src/app/components/VotingSession.js:108-111 | the numeric votes of two result lists concatenate |
| Consensus.NumericVotesPermutation | src/app/components/VotingSession.js:108-111 | permuting the results permutes the numeric votes |
| Consensus.SumConcat | src/app/components/VotingSession.js:115 | the `reduce` sum distributes over concatenation |
| Consensus.SumPermutation | src/app/components/VotingSession.js:115 | the sum does not depend on the order of the votes |
| Consensus.NearestFrom | src/app/components/VotingSession.js:119-121 | the scan returns its seed or one of the remaining candidates |
| Consensus.Nearest | src/app/components/VotingSession.js:119-121 | the snap returns one of the scale values |
| Consensus.FirstNearestUnique | src/app/components/VotingSession.js:119-121 | there is only one first-nearest position, so "ties go to the earlier value" determines the answer |
| Consensus.NearestFromIsFirstNearest | src/app/components/VotingSession.js:119-121 | with a strict `<`, scanning onward from the first nearest of a prefix gives the first nearest of the whole list |
| Consensus.NearestIsFirstNearest | src/app/components/VotingSession.js:119-121 | the snap returns the first candidate whose distance to the mean is minimal: nothing is closer, and every earlier candidate is farther |
| Consensus.CalculateAverage | src/app/components/VotingSession.js:107-122 | the consensus is 0 iff no numeric vote remains, and otherwise is a value of the scale |
| Consensus.ConsensusIsNearestToMean | src/app/components/VotingSession.js:113-121 | with numeric votes present, the consensus is the first scale value nearest to their mean |
| Consensus.RoomConsensus | src/app/components/Room.js:253-264 | the copy in the room view, including its `'0'` for no results, agrees with calculateAverage |
| Consensus.NumericVotesOfOne | src/app/components/VotingSession.js:108-111 | a single result contributes its number iff it is not `?`/`coffee`/unset |
| Consensus.NumericVotesOfNumbers | src/app/components/VotingSession.js:108-111 | when every result holds a number card, the numeric votes are those numbers, in order |
| Consensus.IgnoresNonNumericVote | src/app/components/VotingSession.js:109-111 | adding or removing a `?`, `coffee` or unset vote anywhere never changes the consensus |
| Consensus.ConsensusPermutation | src/app/components/VotingSession.js:108-121 | the consensus does not depend on the order of the votes |
| Consensus.HalfCountsAsHalf | src/app/components/VotingSession.js:110 | a `1/2` vote counts as 0.5, and alone it gives the consensus 0.5 |
| Consensus.NearestToOneAndAHalf | src/app/components/VotingSession.js:119-121 | the mean 1.5, a tie between 1 and 2, snaps to 1 |
| Consensus.NearestToSixteenThirds | src/app/components/VotingSession.js:119-121 | the mean 16/3 snaps to 5 |
| Consensus.ConsensusOfOneAndTwo | src/app/components/VotingSession.js:107-122 | the votes 1 and 2 give 1 (the tie goes to the earlier value) |
| Consensus.ConsensusOfThreeFiveEight | src/app/components/VotingSession.js:107-122 | the votes 3, 5 and 8 give 5 |
| Consensus.ConsensusOfNonNumericOnly | src/app/components/VotingSession.js:113 | only `?` and `coffee` votes give 0 |
| Room.DemoUsers | src/app/components/Room.js:47-50 | the two demo participants, `demo1` "Alice (Demo)" and `demo2` "Bob (Demo)", unvoted and not observers |
| Room.AllVotesIn | src/app/components/Room.js:64 | the reveal gate, defined from `filter` and `every`; its meaning is proved in `Room.AllVotesInIff` |
| Room.MarkVote | src/app/components/Room.js:109-113 | the card-select updater, a `map` over the users; its effect is proved in `Room.MarkVoteEffect` |
| Room.ClearVoteOf | src/app/components/Room.js:93-97 | the clear-vote updater, a `map` over the users; its effect is proved in `Room.ClearVoteEffect` |
| Room.ResetVotes | src/app/components/Room.js:134-138 | the reset updater, a `map` over the users; its effect is proved in `Room.ResetVotesEffect` |
| Room.RevealResults | src/app/components/Room.js:121-126 | the reveal snapshot, a `filter` then a `map`; its contents are proved in `Room.RevealResultsMembers` |
| Room.JoinUsers | src/app/components/Room.js:40-41 | the join updater; its effect is proved in `Room.JoinUsersEffect` |
| Room.WithDemoUsers | src/app/components/Room.js:52-59 | the demo updater; its effect is proved in `Room.WithDemoUsersEffect` |
| Room.IsDigitKey | src/app/components/Room.js:73 | the digit test, as string comparison with "0" and "9" |
| Room.DigitCard | src/app/components/Room.js:74-76 | the deck entry at the parsed key, when the deck has that index |
| Room.KeyRule | src/app/components/Room.js:73-98 | the four shortcut conditions with their actions; proved exclusive and exact in `Room.KeyRulesExclusive` and `Room.KeyRuleGuards` |
| Room.AllVotesInIff | src/app/components/Room.js:64 | all votes are in iff every non-observer has voted |
| Room.AllVotesInWithoutVoters | src/app/components/Room.js:64 | with no non-observer at all, all votes are in vacuously |
| Room.MarkVoteEffect | src/app/components/Room.js:109-113 | the card-select updater marks exactly the current user as voted with the card; everyone else, the length and the order are unchanged |
| Room.AllVotesInAfterVote | src/app/components/Room.js:64 | after the current user votes, all votes are in iff every other non-observer had voted |
| Room.RevealResultsMembers | src/app/components/Room.js:121-126 | a result appears in the snapshot iff some non-observer who voted has that name and card |
| Room.RevealResultsConcat | src/app/components/Room.js:121-126 | the snapshot keeps list order |
| Room.RevealResultsHoldCards | src/app/components/Room.js:121-126 | when vote flags agree with cards, every result holds a card |
| Room.ClearVoteEffect | src/app/components/Room.js:93-97 | clearing withdraws exactly the current user's vote and card; everyone else, the length and the order are unchanged |
| Room.ClearAfterVote | src/app/components/Room.js:90-98 | clearing right after selecting a card gives the same list as clearing without the selection |
| Room.VoteThenReveal | src/app/components/Room.js:105-128 | after a non-observer selects a card, the reveal lists them with that card |
| Room.ResetVotesEffect | src/app/components/Room.js:134-138 | reset clears every vote and card; it keeps ids, names, observer flags, length and order; and a reveal straight after shows nothing |
| Room.ResetVotesIdempotent | src/app/components/Room.js:134-138 | resetting twice is resetting once |
| Room.JoinUsersEffect | src/app/components/Room.js:38-42 | after a join the joining user is last, and no other user keeps that name; every user with another name stays with all its copies, and nobody else is added |
| Room.JoinUsersConcat | src/app/components/Room.js:40-41 | the users a join keeps stay in their order |
| Room.JoinUsersIdempotent | src/app/components/Room.js:38-42 | joining twice is joining once |
| Room.DemoUsersAreNotReal | src/app/components/Room.js:47-54 | both demo names contain "Demo" |
| Room.WithDemoUsersEffect | src/app/components/Room.js:52-59 | if exactly one position holds a user whose name lacks "Demo", the list becomes that user followed by the two demo users; with no such user, or with two or more, the list is unchanged |
| Room.WithDemoUsersIdempotent | src/app/components/Room.js:52-59 | running the demo updater again changes nothing |
| Room.JoinThenDemo | src/app/components/Room.js:27-60 | a newcomer without "Demo" in their name, joining an empty room, is followed by the two demo users |
| Room.DemoUsersStayUnvoted | src/app/components/Room.js:47-50 | while the current id is neither demo id, selecting, clearing and resetting leave an unvoted demo user unvoted |
| Room.DemoUsersBlockAllVotesIn | src/app/components/Room.js:52-64 | once the demo users are added, not all votes are in |
| Room.KeyRulesExclusive | src/app/components/Room.js:73-98 | no key satisfies two of the four shortcut conditions at once |
| Room.DigitKeyPicksNumberCard | src/app/components/Room.js:73-78 | while hidden, digit key d selects `cardValues[d]`, which is never `?` or `coffee` |
| Room.KeyRuleGuards | src/app/components/Room.js:73-98 | R reveals iff hidden and all votes are in; N resets iff revealed; C clears iff a card is held while hidden; a card is picked only while hidden |
| Room.Room.constructor | src/app/components/Room.js:11-16 | the room starts empty, hidden, with no card and no results |
| Room.Room.Join | src/app/components/Room.js:27-42 | the join effect applies the join updater with a fresh unvoted participant |
| Room.Room.AddDemoUsers | src/app/components/Room.js:46-60 | the delayed demo effect applies the demo updater |
| Room.Room.SelectCard | src/app/components/Room.js:105-115 | the local card becomes the selection, and the users get the card-select update |
| Room.Room.ClearVote | src/app/components/Room.js:90-98 | the local card is cleared and only the current user's vote is withdrawn |
| Room.Room.Reveal | src/app/components/Room.js:119-128 | the room is revealed with the snapshot of the current users, which hold cards |
| Room.Room.Reset | src/app/components/Room.js:130-139 | hidden, no card, no results, and every vote cleared |
| Room.Room.HandleKey | src/app/components/Room.js:67-99 | a key press has exactly the effect of the one rule it matches against the pre-press state, or none |
| Backlog.InitialStories | src/app/components/VotingSession.js:23 | the list the mount effect installs: one untitled story with id 1, no points, not completed |
| Backlog.MissingStory | src/app/components/VotingSession.js:37 | what spreading an absent slot yields: no id, an empty title, no points, not completed |
| Backlog.SlotAt | src/app/components/VotingSession.js:36-37 | the slot that the submit and complete handlers spread: the story at the index, or the missing story past the end (also at lines 98-99) |
| Backlog.WriteSlot | src/app/components/VotingSession.js:35-39 | copying the list and overwriting one slot changes that slot only, appending when it is one past the end |
| Backlog.ClampIndex | src/app/components/VotingSession.js:89-92 | after a delete the index is kept if in range, else becomes `max(0, length - 1)`; it is always in range for a non-empty list |
| Backlog.NewStory | src/app/components/VotingSession.js:47-52 | the story handleAddNewStory builds |
| Backlog.AddStory | src/app/components/VotingSession.js:45-53 | the add-story update; its effect is proved in `Backlog.AddStoryEffect` |
| Backlog.RemoveStories | src/app/components/VotingSession.js:86 | the delete filter; its effect is proved in `Backlog.RemoveStoriesEffect` |
| Backlog.Retitle | src/app/components/VotingSession.js:71-73 | the save-edit map; its effect is proved in `Backlog.RetitleEffect` |
| Backlog.AddStoryEffect | src/app/components/VotingSession.js:45-56 | blank input adds nothing; otherwise the old stories stay, followed by one story with id `length + 1`, the trimmed title, no points and not completed |
| Backlog.AddStoryKeepsSequentialIds | src/app/components/VotingSession.js:48 | until a delete, ids run 1..n and each new id is fresh |
| Backlog.RemoveStoriesEffect | src/app/components/VotingSession.js:86 | a delete removes exactly the stories with the id and keeps every copy of each other story; the length is unchanged iff no story had the id |
| Backlog.RemoveStoriesConcat | src/app/components/VotingSession.js:86 | a delete keeps the order of the stories that stay |
| Backlog.RetitleEffect | src/app/components/VotingSession.js:71-73 | saving an edit retitles every story with the id; length, ids, points and completion are unchanged |
| Backlog.RetitleIdempotent | src/app/components/VotingSession.js:71-73 | saving the same edit twice is saving it once |
| Backlog.RepeatedIdEmptiesBacklog | src/app/components/VotingSession.js:45-93 | add, delete and add again gives two stories with id 2, and deleting id 2 empties the backlog |
| Backlog.VotingSession.constructor | src/app/components/VotingSession.js:13-25 | after mounting, the backlog is one untitled story with id 1, the current index is 0, and the inputs are empty |
| Backlog.VotingSession.SubmitStory | src/app/components/VotingSession.js:34-43 | only the current slot changes, and it takes the story input as its title |
| Backlog.VotingSession.AddNewStory | src/app/components/VotingSession.js:45-56 | the list gets the add-story update, and the input is cleared exactly when a story was added |
| Backlog.VotingSession.SelectStory | src/app/components/VotingSession.js:58-62 | the current index becomes the chosen listed story |
| Backlog.VotingSession.EditStory | src/app/components/VotingSession.js:64-68 | the edit input starts from the story's title |
| Backlog.VotingSession.SaveEdit | src/app/components/VotingSession.js:70-77 | every story with the id takes the trimmed edit text, and the edit input is cleared |
| Backlog.VotingSession.CancelEdit | src/app/components/VotingSession.js:79-82 | the edit input is cleared and nothing else changes |
| Backlog.VotingSession.DeleteStory | src/app/components/VotingSession.js:84-93 | stories with the id are removed and the index is clamped, so it stays in range |
| Backlog.VotingSession.CompleteStory | src/app/components/VotingSession.js:95-105 | only the current slot changes, taking the consensus of the revealed votes as points and being marked completed; then the room is reset |

## Left out

- Timing and identity. The random `currentUserId` is a constructor parameter
  (`Math.random`). `lastSeen` (`Date.now`) is left out. The two-second delay before the
  demo users is left out too, because `AddDemoUsers` is a separate call.
- Event wiring. Registering the `window` key listener, `preventDefault` and
  `stopPropagation` are not modelled. React's effect scheduling is not modelled either:
  each handler is an explicit method call.
- The effect at src/app/components/VotingSession.js:27-32 and the `onStoryChange`
  callback. They copy the current title into the story input and into the room's
  `currentStory`. Neither is modelled, and so neither is `currentStory` itself.
- `editingStory` and `editingStoryId`. `editingStory` only chooses which widgets are
  drawn. `editingStoryId` does that too, and it also disables the click that selects the
  story being edited (src/app/components/VotingSession.js:133); that guard is listed with
  the UI conditions below. Typing into an input is modelled as assigning its field.
- The UI conditions that decide when a handler can be called. The methods accept their
  calls in any valid state. The one exception is selecting a story, which needs an index
  in range, because the list only offers listed stories. The conditions in the
  components are:
  - the card buttons are disabled while revealed, so a click never selects a card after
    a reveal (src/app/components/Room.js:288-295). Only the digit shortcut's own guard,
    in `Room.KeyRule`, is modelled;
  - the reveal buttons are shown only while hidden and with all votes in
    (src/app/components/Room.js:240, src/app/components/VotingSession.js:329). Only the
    R shortcut's guard is modelled;
  - the new-round, complete and re-vote buttons are shown only while revealed
    (src/app/components/Room.js:250-272, src/app/components/VotingSession.js:338-351);
  - the delete button is shown only with more than one story
    (src/app/components/VotingSession.js:206);
  - a click on the story being edited does not select it
    (src/app/components/VotingSession.js:133);
  - Enter saves an edit, and Ctrl+Enter submits the story text, only when the input is
    not blank after trimming (src/app/components/VotingSession.js:151, 257).
- Rendering, CSS, labels (`½`, Skip, Pass), the room code, clipboard and `alert`.
- `src/app/lib/firebase.js`, `src/app/page.js`, `src/app/components/UserList.js`,
  `src/app/components/PokerCard.js`, `src/app/components/Room-simple.js` and
  `src/app/components/Room-backup.js` are not part of this model. They are setup,
  routing or rendering.
- IEEE-754 doubles. The consensus uses exact `real` arithmetic. For these inputs this
  gives the same snapped value, as argued above.
- JsString.ParseDecimalPrefix: reads only the leading decimal digits. It leaves out
  `parseInt`'s sign, leading white space and `0x` handling. The string test would admit a
  value such as `0x5`, which `parseInt` reads as 5 and the model reads as 0. But no
  keyboard key value that starts with a digit is longer than one character.
- Cards.VoteNumber: parses only what the deck's labels contain: digits, and the `1/2`
  label, which reads as 1. `parseFloat`'s decimal point and exponent are left out,
  because no label has them.
- Room.KeyRule: keys of more than one character are covered only through the digit
  prefix that `parseInt` reads. The `toLowerCase` comparison is stated for the
  one-character keys R, N and C, and their capitals.
- Consensus.RoomConsensus: the room view shows the string `'0'` for no results. The
  model returns the number 0, which renders as the same numeral.
- Holes in JavaScript arrays. Writing past the end of the list would leave a hole, but
  the current index never goes past the end (`Backlog.VotingSession.Valid`), so none
  arises.
- Backlog.MissingStory: the spread of a missing slot gives an object with only the
  written fields. The model reads its absent title as `""`, its points as none and its
  completion as false. So a story completed in an empty backlog has an undefined title
  in the source. Editing and then saving that story throws a TypeError at
  `editInput.trim()` (src/app/components/VotingSession.js:72). The model saves `""`
  without error, and does not model that TypeError.
