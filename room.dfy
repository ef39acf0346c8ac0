/** The local voting state of one estimation room (Room.js): the participant list,
    the current user's selected card, the reveal flag and the revealed results, with
    the handlers that change them and the keyboard shortcuts that call those handlers. */
module Room {
  import opened Nullable
  import opened JsArray
  import opened JsString
  import opened Cards
  import opened Consensus

  /** A participant as the room lists it (`lastSeen` is a clock reading and is not modelled). */
  datatype User = User(id: string, name: string, hasVoted: bool, selectedCard: Option<Card>, isObserver: bool)

  /** The two stand-in participants added two seconds after joining. */
  const DemoUsers: seq<User> := [
    User("demo1", "Alice (Demo)", false, None, false),
    User("demo2", "Bob (Demo)", false, None, false)
  ]

  /** A participant's vote flag agrees with whether they hold a card. */
  predicate ConsistentVote(u: User) {
    u.hasVoted <==> u.selectedCard.Some?
  }

  predicate IsParticipant(u: User) {
    !u.isObserver
  }

  predicate HasVoted(u: User) {
    u.hasVoted
  }

  /** Every participant who is not an observer has voted. */
  function AllVotesIn(users: seq<User>): bool {
    Every(HasVoted, Filter(IsParticipant, users))
  }

  /** All votes are in exactly when every non-observer has voted; with no non-observer
      at all this holds vacuously. */
  lemma AllVotesInIff(users: seq<User>)
    ensures AllVotesIn(users) <==> forall i :: 0 <= i < |users| && !users[i].isObserver ==> users[i].hasVoted
  {
    var voters := Filter(IsParticipant, users);
    if AllVotesIn(users) {
      forall i | 0 <= i < |users| && !users[i].isObserver ensures users[i].hasVoted {
        assert users[i] in voters;
      }
    } else {
      var k :| 0 <= k < |voters| && !voters[k].hasVoted;
      assert voters[k] in users;
    }
  }

  lemma AllVotesInWithoutVoters(users: seq<User>)
    requires forall i :: 0 <= i < |users| ==> users[i].isObserver
    ensures AllVotesIn(users)
  {
    AllVotesInIff(users);
  }

  /** The card-select update of one user: the user with the id has voted the card; any other user is kept. */
  function VoteFor(id: string, card: Card): User -> User {
    (u: User) => if u.id == id then u.(hasVoted := true, selectedCard := Some(card)) else u
  }

  /** The clear-vote update of one user: the user with the id loses vote and card; any other user is kept. */
  function UnvoteFor(id: string): User -> User {
    (u: User) => if u.id == id then u.(hasVoted := false, selectedCard := None) else u
  }

  /** The reset update of one user: no vote and no card, everything else kept. */
  function Unvote(u: User): User {
    u.(hasVoted := false, selectedCard := None)
  }

  /** A user the reveal lists: a participant who is not an observer and has voted. */
  predicate IsCountedVoter(u: User) {
    !u.isObserver && u.hasVoted
  }

  /** The result entry of one user: their name and the card they hold. */
  function ResultOf(u: User): VoteResult {
    VoteResult(u.name, u.selectedCard)
  }

  /** The updater of handleCardSelect. */
  function MarkVote(users: seq<User>, id: string, card: Card): seq<User> {
    Map(VoteFor(id, card), users)
  }

  /** The updater of the clear-vote shortcut. */
  function ClearVoteOf(users: seq<User>, id: string): seq<User> {
    Map(UnvoteFor(id), users)
  }

  /** The updater of handleReset. */
  function ResetVotes(users: seq<User>): seq<User> {
    Map(Unvote, users)
  }

  /** The snapshot handleReveal takes. */
  function RevealResults(users: seq<User>): seq<VoteResult> {
    Map(ResultOf, Filter(IsCountedVoter, users))
  }

  /** The join updater: drop every user with the joining user's name, then append the joining user. */
  function JoinUsers(users: seq<User>, joining: User): seq<User> {
    Filter(NameIsNot(joining.name), users) + [joining]
  }

  function NameIsNot(name: string): User -> bool {
    (u: User) => u.name != name
  }

  predicate IsRealUser(u: User) {
    !Includes(u.name, "Demo")
  }

  /** The demo updater: with exactly one real (non-"Demo") user, that user followed by the
      two demo users; otherwise the list unchanged. */
  function WithDemoUsers(users: seq<User>): seq<User> {
    var realUsers := Filter(IsRealUser, users);
    if |realUsers| == 1 then realUsers + DemoUsers else users
  }

  /** Selecting a card marks exactly the users with the current id as having voted it;
      every other user, the length and the order are untouched. */
  lemma MarkVoteEffect(users: seq<User>, id: string, card: Card)
    ensures |MarkVote(users, id, card)| == |users|
    ensures forall i :: 0 <= i < |users| && users[i].id == id ==>
      MarkVote(users, id, card)[i] == users[i].(hasVoted := true, selectedCard := Some(card))
    ensures forall i :: 0 <= i < |users| && users[i].id != id ==> MarkVote(users, id, card)[i] == users[i]
  {
  }

  /** After a vote for the current user, all votes are in exactly when every other
      non-observer had already voted. */
  lemma AllVotesInAfterVote(users: seq<User>, id: string, card: Card)
    ensures AllVotesIn(MarkVote(users, id, card)) <==>
      forall i :: 0 <= i < |users| && !users[i].isObserver && users[i].id != id ==> users[i].hasVoted
  {
    var after := MarkVote(users, id, card);
    AllVotesInIff(users);
    AllVotesInIff(after);
    assert forall i :: 0 <= i < |users| ==> after[i] == VoteFor(id, card)(users[i]);
  }

  /** The revealed results are exactly the voted non-observers, in list order, each with
      the card they held. */
  lemma RevealResultsMembers(users: seq<User>, name: string, value: Option<Card>)
    ensures VoteResult(name, value) in RevealResults(users) <==>
      exists i :: 0 <= i < |users| && IsCountedVoter(users[i]) && users[i].name == name && users[i].selectedCard == value
  {
    var voters := Filter(IsCountedVoter, users);
    if VoteResult(name, value) in RevealResults(users) {
      var k :| 0 <= k < |voters| && ResultOf(voters[k]) == VoteResult(name, value);
      assert voters[k] in users;
    }
    if exists i :: 0 <= i < |users| && IsCountedVoter(users[i]) && users[i].name == name && users[i].selectedCard == value {
      var i :| 0 <= i < |users| && IsCountedVoter(users[i]) && users[i].name == name && users[i].selectedCard == value;
      assert users[i] in voters;
      var k :| 0 <= k < |voters| && voters[k] == users[i];
      assert RevealResults(users)[k] == VoteResult(name, value);
    }
  }

  /** The snapshot keeps list order: revealing a concatenation concatenates the snapshots. */
  lemma RevealResultsConcat(a: seq<User>, b: seq<User>)
    ensures RevealResults(a + b) == RevealResults(a) + RevealResults(b)
  {
    FilterConcat(IsCountedVoter, a, b);
    MapConcat(ResultOf, Filter(IsCountedVoter, a), Filter(IsCountedVoter, b));
  }

  /** The results hold a card for everyone listed when every user's vote flag agrees with their card. */
  lemma RevealResultsHoldCards(users: seq<User>)
    requires forall i :: 0 <= i < |users| ==> ConsistentVote(users[i])
    ensures forall k :: 0 <= k < |RevealResults(users)| ==> RevealResults(users)[k].value.Some?
  {
    var voters := Filter(IsCountedVoter, users);
    forall k | 0 <= k < |voters| ensures voters[k].selectedCard.Some? {
      assert voters[k] in users;
    }
  }

  /** Clearing a vote withdraws exactly the vote and card of the users with the current id;
      every other user, the length and the order are untouched. */
  lemma ClearVoteEffect(users: seq<User>, id: string)
    ensures |ClearVoteOf(users, id)| == |users|
    ensures forall i :: 0 <= i < |users| && users[i].id == id ==>
      ClearVoteOf(users, id)[i] == users[i].(hasVoted := false, selectedCard := None)
    ensures forall i :: 0 <= i < |users| && users[i].id != id ==> ClearVoteOf(users, id)[i] == users[i]
  {
  }

  /** Clearing right after selecting a card undoes the selection's effect on the list. */
  lemma ClearAfterVote(users: seq<User>, id: string, card: Card)
    ensures ClearVoteOf(MarkVote(users, id, card), id) == ClearVoteOf(users, id)
  {
    var voted := MarkVote(users, id, card);
    assert forall i :: 0 <= i < |users| ==> voted[i] == VoteFor(id, card)(users[i]);
    assert forall i :: 0 <= i < |users| ==> ClearVoteOf(voted, id)[i] == UnvoteFor(id)(voted[i]);
  }

  /** Selecting a card and then revealing lists the current user with that card, unless they observe. */
  lemma VoteThenReveal(users: seq<User>, id: string, card: Card, i: nat)
    requires i < |users| && users[i].id == id && !users[i].isObserver
    ensures VoteResult(users[i].name, Some(card)) in RevealResults(MarkVote(users, id, card))
  {
    var after := MarkVote(users, id, card);
    assert after[i] == users[i].(hasVoted := true, selectedCard := Some(card));
    RevealResultsMembers(after, users[i].name, Some(card));
  }

  /** Reset clears every vote and keeps ids, names, observer flags and order. */
  lemma ResetVotesEffect(users: seq<User>)
    ensures |ResetVotes(users)| == |users|
    ensures forall i :: 0 <= i < |users| ==>
      var u := ResetVotes(users)[i];
      !u.hasVoted && u.selectedCard == None && u.id == users[i].id && u.name == users[i].name && u.isObserver == users[i].isObserver
    ensures RevealResults(ResetVotes(users)) == []
  {
    FilterNone(IsCountedVoter, ResetVotes(users));
  }

  /** Resetting twice is resetting once. */
  lemma ResetVotesIdempotent(users: seq<User>)
    ensures ResetVotes(ResetVotes(users)) == ResetVotes(users)
  {
  }

  /** After a join exactly one user carries the joining name, and it is the joining user, last;
      every other user with a different name stays, with all its copies. */
  lemma JoinUsersEffect(users: seq<User>, joining: User)
    ensures var r := JoinUsers(users, joining);
      && r[|r| - 1] == joining
      && (forall i :: 0 <= i < |r| - 1 ==> r[i].name != joining.name)
      && (forall u :: u in users && u.name != joining.name ==> u in r)
      && (forall u :: u in r ==> u in users || u == joining)
      && (forall u :: u != joining ==> multiset(r)[u] == if u.name != joining.name then multiset(users)[u] else 0)
  {
    var kept := Filter(NameIsNot(joining.name), users);
    assert forall i :: 0 <= i < |kept| ==> kept[i] in kept;
    forall u | u != joining
      ensures multiset(JoinUsers(users, joining))[u] == if u.name != joining.name then multiset(users)[u] else 0
    {
      FilterMultiset(NameIsNot(joining.name), users, u);
    }
  }

  /** The users a join keeps stay in their order: a join filters each part of the list alone. */
  lemma JoinUsersConcat(a: seq<User>, b: seq<User>, joining: User)
    ensures JoinUsers(a + b, joining) == Filter(NameIsNot(joining.name), a) + JoinUsers(b, joining)
  {
    FilterConcat(NameIsNot(joining.name), a, b);
  }

  /** Joining twice with the same user gives the same list as joining once. */
  lemma JoinUsersIdempotent(users: seq<User>, joining: User)
    ensures JoinUsers(JoinUsers(users, joining), joining) == JoinUsers(users, joining)
  {
    var p := NameIsNot(joining.name);
    var kept := Filter(p, users);
    FilterConcat(p, kept, [joining]);
    assert Filter(p, [joining]) == [];
    FilterIdempotent(p, users);
  }

  lemma DemoUsersAreNotReal()
    ensures !IsRealUser(DemoUsers[0]) && !IsRealUser(DemoUsers[1])
  {
    assert OccursAt(DemoUsers[0].name, "Demo", 7);
    assert OccursAt(DemoUsers[1].name, "Demo", 5);
    IncludesIff(DemoUsers[0].name, "Demo");
    IncludesIff(DemoUsers[1].name, "Demo");
  }

  /** The user at i is the only one whose name does not mention "Demo". */
  predicate OnlyRealUserAt(users: seq<User>, i: nat)
    requires i < |users|
  {
    IsRealUser(users[i]) && forall j :: 0 <= j < |users| && j != i ==> !IsRealUser(users[j])
  }

  /** With exactly one real user the list becomes that user followed by the two demo users;
      with none, or with two or more, it is unchanged. */
  lemma WithDemoUsersEffect(users: seq<User>)
    ensures forall i :: 0 <= i < |users| && OnlyRealUserAt(users, i) ==> WithDemoUsers(users) == [users[i]] + DemoUsers
    ensures (forall i :: 0 <= i < |users| ==> !IsRealUser(users[i])) ==> WithDemoUsers(users) == users
    ensures (exists i, j :: 0 <= i < j < |users| && IsRealUser(users[i]) && IsRealUser(users[j])) ==> WithDemoUsers(users) == users
  {
    forall i | 0 <= i < |users| && OnlyRealUserAt(users, i) ensures WithDemoUsers(users) == [users[i]] + DemoUsers {
      FilterSingleton(IsRealUser, users, i);
    }
    if forall i :: 0 <= i < |users| ==> !IsRealUser(users[i]) {
      FilterNone(IsRealUser, users);
    }
    if exists i, j :: 0 <= i < j < |users| && IsRealUser(users[i]) && IsRealUser(users[j]) {
      var i, j :| 0 <= i < j < |users| && IsRealUser(users[i]) && IsRealUser(users[j]);
      FilterTwo(IsRealUser, users, i, j);
    }
  }

  /** Adding the demo users a second time changes nothing. */
  lemma WithDemoUsersIdempotent(users: seq<User>)
    ensures WithDemoUsers(WithDemoUsers(users)) == WithDemoUsers(users)
  {
    var realUsers := Filter(IsRealUser, users);
    if |realUsers| == 1 {
      DemoUsersAreNotReal();
      FilterConcat(IsRealUser, realUsers, DemoUsers);
      FilterIdempotent(IsRealUser, users);
      assert DemoUsers == [DemoUsers[0]] + [DemoUsers[1]];
      FilterConcat(IsRealUser, [DemoUsers[0]], [DemoUsers[1]]);
      assert Filter(IsRealUser, DemoUsers) == [];
    }
  }

  /** A newcomer whose name does not mention "Demo", joining an empty room, is followed
      by the two demo users. */
  lemma JoinThenDemo(me: User)
    requires IsRealUser(me)
    ensures WithDemoUsers(JoinUsers([], me)) == [me] + DemoUsers
  {
    assert JoinUsers([], me) == [me];
    assert Filter(IsRealUser, [me]) == [me];
  }

  /** The demo users are added without a vote, so right after they are added not all votes
      are in and the reveal shortcut cannot fire. */
  lemma DemoUsersBlockAllVotesIn(users: seq<User>)
    requires WithDemoUsers(users) != users
    ensures !AllVotesIn(WithDemoUsers(users))
  {
    var r := WithDemoUsers(users);
    AllVotesInIff(r);
    assert r[|r| - 1] == DemoUsers[1];
  }

  /** While the current user's id is not a demo id, selecting, clearing and resetting leave
      every demo user without a vote. */
  lemma DemoUsersStayUnvoted(users: seq<User>, id: string, card: Card)
    requires id != DemoUsers[0].id && id != DemoUsers[1].id
    ensures forall i :: 0 <= i < |users| && (users[i].id == DemoUsers[0].id || users[i].id == DemoUsers[1].id) && !users[i].hasVoted ==>
      !MarkVote(users, id, card)[i].hasVoted && !ClearVoteOf(users, id)[i].hasVoted && !ResetVotes(users)[i].hasVoted
  {
  }

  /** What one key press does. */
  datatype KeyAction = PickCard(card: Card) | RevealVotes | NewRound | ClearVote | NoAction

  /** The digit test of the key handler: the key lies between "0" and "9" in string order. */
  predicate IsDigitKey(key: string) {
    !StrLess(key, "0") && !StrLess("9", key)
  }

  /** The card a digit rule picks: the deck entry at the number the key begins with, if the deck has that position. */
  function DigitCard(key: string): Option<Card> {
    match ParseDecimalPrefix(key)
    case Some(n) => if n < |CardValues| then Some(CardValues[n]) else None
    case None => None
  }

  /** The four rules of handleKeyDown, read against one snapshot of the state:
      a digit picks a card while hidden; R reveals while hidden once all votes are in;
      N starts a new round while revealed; C clears a held card while hidden.
      At most one rule matches a key (KeyRulesExclusive), so the first match is the only one. */
  function KeyRule(key: string, isRevealed: bool, holdsCard: bool, allVotesIn: bool): KeyAction {
    if IsDigitKey(key) && !isRevealed && DigitCard(key).Some? then PickCard(DigitCard(key).value)
    else if LowerCaseIs(key, 'r') && !isRevealed && allVotesIn then RevealVotes
    else if LowerCaseIs(key, 'n') && isRevealed then NewRound
    else if LowerCaseIs(key, 'c') && holdsCard && !isRevealed then ClearVote
    else NoAction
  }

  /** A digit key begins with a digit; so no letter rule can match it, and the letter rules
      name different keys: the four `if`s of the handler never fire together. */
  lemma KeyRulesExclusive(key: string)
    ensures IsDigitKey(key) ==> key != [] && IsDigit(key[0])
    ensures IsDigitKey(key) ==> !LowerCaseIs(key, 'r') && !LowerCaseIs(key, 'n') && !LowerCaseIs(key, 'c')
    ensures !(LowerCaseIs(key, 'r') && LowerCaseIs(key, 'n'))
    ensures !(LowerCaseIs(key, 'r') && LowerCaseIs(key, 'c'))
    ensures !(LowerCaseIs(key, 'n') && LowerCaseIs(key, 'c'))
  {
  }

  /** A single digit key d picks `cardValues[d]` while hidden, which is never `?` or `coffee`. */
  lemma DigitKeyPicksNumberCard(key: string, isRevealed: bool, holdsCard: bool, allVotesIn: bool)
    requires |key| == 1 && IsDigit(key[0]) && !isRevealed
    ensures var d := key[0] as int - '0' as int;
      KeyRule(key, isRevealed, holdsCard, allVotesIn) == PickCard(CardValues[d])
      && CardValues[d] != Unknown && CardValues[d] != Coffee
  {
    ParseSingleDigit(key);
    assert !StrLess(key, "0") by {
      assert key[1..] == [] && "0"[1..] == [];
    }
    assert !StrLess("9", key) by {
      assert key[1..] == [] && "9"[1..] == [];
    }
  }

  /** The reveal, new-round and clear rules fire exactly under their guards; a card is picked
      only while hidden, and by a one-character key never `?` or `coffee`. */
  lemma KeyRuleGuards(key: string, isRevealed: bool, holdsCard: bool, allVotesIn: bool)
    ensures KeyRule(key, isRevealed, holdsCard, allVotesIn) == RevealVotes <==> LowerCaseIs(key, 'r') && !isRevealed && allVotesIn
    ensures KeyRule(key, isRevealed, holdsCard, allVotesIn) == NewRound <==> LowerCaseIs(key, 'n') && isRevealed
    ensures KeyRule(key, isRevealed, holdsCard, allVotesIn) == ClearVote <==> LowerCaseIs(key, 'c') && holdsCard && !isRevealed
    ensures KeyRule(key, isRevealed, holdsCard, allVotesIn).PickCard? ==> !isRevealed && IsDigitKey(key)
    ensures |key| == 1 && KeyRule(key, isRevealed, holdsCard, allVotesIn).PickCard? ==>
      KeyRule(key, isRevealed, holdsCard, allVotesIn).card !in {Unknown, Coffee}
  {
    KeyRulesExclusive(key);
    if |key| == 1 && KeyRule(key, isRevealed, holdsCard, allVotesIn).PickCard? {
      DigitKeyPicksNumberCard(key, isRevealed, holdsCard, allVotesIn);
    }
  }

  /** The room component's state. `currentUserId` is a random string drawn once; it is a
      parameter of the model. */
  class Room {
    const currentUserId: string
    const userName: string
    var users: seq<User>
    var selectedCard: Option<Card>
    var isRevealed: bool
    var votingResults: seq<VoteResult>

    /** Every user's vote flag agrees with their card, nothing is shown before a reveal,
        and every revealed result holds a card. */
    ghost predicate Valid()
      reads this
    {
      && (forall i :: 0 <= i < |users| ==> ConsistentVote(users[i]))
      && (!isRevealed ==> votingResults == [])
      && (forall k :: 0 <= k < |votingResults| ==> votingResults[k].value.Some?)
    }

    /** The state before the join effect has run. */
    constructor (currentUserId: string, userName: string)
      ensures Valid()
      ensures this.currentUserId == currentUserId && this.userName == userName
      ensures users == [] && selectedCard == None && !isRevealed && votingResults == []
    {
      this.currentUserId := currentUserId;
      this.userName := userName;
      users := [];
      selectedCard := None;
      isRevealed := false;
      votingResults := [];
    }

    /** The join effect: enter the list under `currentUserId`, replacing any namesake. */
    method Join()
      requires Valid()
      modifies this
      ensures Valid()
      ensures users == JoinUsers(old(users), User(currentUserId, userName, false, None, false))
      ensures selectedCard == old(selectedCard) && isRevealed == old(isRevealed) && votingResults == old(votingResults)
    {
      var me := User(currentUserId, userName, false, None, false);
      var kept := Filter(NameIsNot(userName), users);
      assert forall i :: 0 <= i < |kept| ==> kept[i] in users;
      users := JoinUsers(users, me);
    }

    /** The delayed demo updater. */
    method AddDemoUsers()
      requires Valid()
      modifies this
      ensures Valid()
      ensures users == WithDemoUsers(old(users))
      ensures selectedCard == old(selectedCard) && isRevealed == old(isRevealed) && votingResults == old(votingResults)
    {
      var realUsers := Filter(IsRealUser, users);
      assert forall i :: 0 <= i < |realUsers| ==> realUsers[i] in users;
      users := WithDemoUsers(users);
    }

    /** handleCardSelect */
    method SelectCard(card: Card)
      requires Valid()
      modifies this
      ensures Valid()
      ensures selectedCard == Some(card)
      ensures users == MarkVote(old(users), currentUserId, card)
      ensures isRevealed == old(isRevealed) && votingResults == old(votingResults)
    {
      selectedCard := Some(card);
      users := MarkVote(users, currentUserId, card);
    }

    /** The body of the C shortcut: drop the local card and the current user's vote. */
    method ClearVote()
      requires Valid()
      modifies this
      ensures Valid()
      ensures selectedCard == None
      ensures users == ClearVoteOf(old(users), currentUserId)
      ensures isRevealed == old(isRevealed) && votingResults == old(votingResults)
    {
      selectedCard := None;
      users := ClearVoteOf(users, currentUserId);
    }

    /** handleReveal */
    method Reveal()
      requires Valid()
      modifies this
      ensures Valid()
      ensures isRevealed && votingResults == RevealResults(old(users))
      ensures users == old(users) && selectedCard == old(selectedCard)
    {
      isRevealed := true;
      RevealResultsHoldCards(users);
      votingResults := RevealResults(users);
    }

    /** handleReset */
    method Reset()
      requires Valid()
      modifies this
      ensures Valid()
      ensures !isRevealed && selectedCard == None && votingResults == []
      ensures users == ResetVotes(old(users))
    {
      isRevealed := false;
      selectedCard := None;
      votingResults := [];
      users := ResetVotes(users);
    }

    /** handleKeyDown: apply the one rule the key matches against the current state. */
    method HandleKey(key: string)
      requires Valid()
      modifies this
      ensures Valid()
      ensures match KeyRule(key, old(isRevealed), old(selectedCard).Some?, AllVotesIn(old(users)))
        case PickCard(c) =>
          selectedCard == Some(c) && users == MarkVote(old(users), currentUserId, c)
          && isRevealed == old(isRevealed) && votingResults == old(votingResults)
        case RevealVotes =>
          isRevealed && votingResults == RevealResults(old(users)) && users == old(users) && selectedCard == old(selectedCard)
        case NewRound =>
          !isRevealed && selectedCard == None && votingResults == [] && users == ResetVotes(old(users))
        case ClearVote =>
          selectedCard == None && users == ClearVoteOf(old(users), currentUserId)
          && isRevealed == old(isRevealed) && votingResults == old(votingResults)
        case NoAction =>
          users == old(users) && selectedCard == old(selectedCard) && isRevealed == old(isRevealed) && votingResults == old(votingResults)
    {
      var action := KeyRule(key, isRevealed, selectedCard.Some?, AllVotesIn(users));
      match action
      case PickCard(c) => SelectCard(c);
      case RevealVotes => Reveal();
      case NewRound => Reset();
      case ClearVote => ClearVote();
      case NoAction =>
    }
  }
}
