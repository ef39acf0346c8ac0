/** The story backlog beside the room (VotingSession.js): a list of stories, the index of
    the one being estimated, the three text inputs, and the handlers that edit them. */
module Backlog {
  import opened Nullable
  import opened JsArray
  import opened JsString
  import opened Consensus
  import Room

  /** A backlog item. Story ids are not unique: a new story takes `length + 1`, which can
      repeat an id after a delete. `id` is None for a slot that was written past the end
      of an empty list, where the source spreads `undefined` and the object gets no id. */
  datatype Story = Story(id: Option<int>, title: string, points: Option<real>, isCompleted: bool)

  /** What copying a slot that holds no story yields: no id, no title, no points, not
      completed (each absent field read as its empty value). */
  const MissingStory: Story := Story(None, "", None, false)

  /** The list the mount effect installs in place of the empty initial state. */
  const InitialStories: seq<Story> := [Story(Some(1), "", None, false)]

  /** The current index points at a story, or is 0 when the list is empty. */
  predicate IndexInRange(stories: seq<Story>, index: nat) {
    IndexInRangeOfLength(index, |stories|)
  }

  /** The story at the index, or the missing story past the end. */
  function SlotAt(stories: seq<Story>, index: nat): Story {
    if index < |stories| then stories[index] else MissingStory
  }

  /** A copy of the list with one slot overwritten. The index is at most the length,
      so writing past the end appends. */
  function WriteSlot(stories: seq<Story>, index: nat, story: Story): (r: seq<Story>)
    requires index <= |stories|
    ensures |r| == if index < |stories| then |stories| else |stories| + 1
    ensures r[index] == story
    ensures forall k :: 0 <= k < |stories| && k != index ==> r[k] == stories[k]
  {
    if index < |stories| then stories[index := story] else stories + [story]
  }

  /** The story handleAddNewStory appends. */
  function NewStory(stories: seq<Story>, input: string): Story {
    Story(Some(|stories| + 1), Trim(input), None, false)
  }

  /** handleAddNewStory on the list: nothing for blank input, else one new story at the end. */
  function AddStory(stories: seq<Story>, input: string): seq<Story> {
    if Trim(input) == [] then stories else stories + [NewStory(stories, input)]
  }

  function IdIsNot(id: Option<int>): Story -> bool {
    (s: Story) => s.id != id
  }

  /** The stories whose id differs from the deleted one, in their order. */
  function RemoveStories(stories: seq<Story>, id: Option<int>): seq<Story> {
    Filter(IdIsNot(id), stories)
  }

  function RetitleFor(id: Option<int>, title: string): Story -> Story {
    (s: Story) => if s.id == id then s.(title := title) else s
  }

  /** Every story with the id takes the new title; the others are kept as they are. */
  function Retitle(stories: seq<Story>, id: Option<int>, title: string): seq<Story> {
    Map(RetitleFor(id, title), stories)
  }

  /** The index after a delete: kept while in range, else the last position (0 for an empty list). */
  function ClampIndex(index: nat, length: nat): (r: nat)
    ensures IndexInRangeOfLength(r, length)
    ensures index < length ==> r == index
    ensures index >= length ==> r == if length == 0 then 0 else length - 1
  {
    if index >= length then (if length >= 1 then length - 1 else 0) else index
  }

  predicate IndexInRangeOfLength(index: nat, length: nat) {
    index < length || (length == 0 && index == 0)
  }

  /** The ids of the stories, in order. */
  function Ids(stories: seq<Story>): seq<Option<int>> {
    Map((s: Story) => s.id, stories)
  }

  /** Blank input adds nothing; otherwise the list grows by one story that carries the
      trimmed input, id `length + 1`, no points and not completed, and the old stories stay. */
  lemma AddStoryEffect(stories: seq<Story>, input: string)
    ensures Trim(input) == [] ==> AddStory(stories, input) == stories
    ensures Trim(input) != [] ==>
      var r := AddStory(stories, input);
      && |r| == |stories| + 1 && r[..|stories|] == stories
      && r[|stories|] == Story(Some(|stories| + 1), Trim(input), None, false)
      && !IsWhitespace(r[|stories|].title[0]) && !IsWhitespace(r[|stories|].title[|r[|stories|].title| - 1])
  {
    var i, j := TrimIsMiddle(input);
    if Trim(input) != [] {
      assert (stories + [NewStory(stories, input)])[..|stories|] == stories;
    }
  }

  /** The ids are 1, 2, ..., n in order: what a backlog has until its first delete. */
  predicate SequentialIds(stories: seq<Story>) {
    forall k :: 0 <= k < |stories| ==> stories[k].id == Some(k + 1)
  }

  /** Until a delete, each new story gets an id no other story has, and the ids stay sequential. */
  lemma AddStoryKeepsSequentialIds(stories: seq<Story>, input: string)
    requires SequentialIds(stories)
    ensures SequentialIds(AddStory(stories, input))
    ensures forall k :: 0 <= k < |stories| ==> stories[k].id != NewStory(stories, input).id
  {
  }

  /** Deleting removes exactly the stories with the id and keeps every copy of the others,
      and it shortens the list exactly when some story had the id. */
  lemma RemoveStoriesEffect(stories: seq<Story>, id: Option<int>)
    ensures forall s :: s in RemoveStories(stories, id) ==> s in stories && s.id != id
    ensures forall s :: s in stories && s.id != id ==> s in RemoveStories(stories, id)
    ensures forall s :: multiset(RemoveStories(stories, id))[s] == if s.id != id then multiset(stories)[s] else 0
    ensures |RemoveStories(stories, id)| == |stories| <==> forall k :: 0 <= k < |stories| ==> stories[k].id != id
  {
    FilterKeepsAll(IdIsNot(id), stories);
    forall s ensures multiset(RemoveStories(stories, id))[s] == if s.id != id then multiset(stories)[s] else 0 {
      FilterMultiset(IdIsNot(id), stories, s);
    }
  }

  /** Deleting keeps the order of the stories that stay: it works on each part of the list alone. */
  lemma RemoveStoriesConcat(a: seq<Story>, b: seq<Story>, id: Option<int>)
    ensures RemoveStories(a + b, id) == RemoveStories(a, id) + RemoveStories(b, id)
  {
    FilterConcat(IdIsNot(id), a, b);
  }

  /** Saving an edit retitles every story with the id and changes nothing else. */
  lemma RetitleEffect(stories: seq<Story>, id: Option<int>, title: string)
    ensures |Retitle(stories, id, title)| == |stories|
    ensures Ids(Retitle(stories, id, title)) == Ids(stories)
    ensures forall k :: 0 <= k < |stories| ==>
      var s := Retitle(stories, id, title)[k];
      && s.title == (if stories[k].id == id then title else stories[k].title)
      && s.points == stories[k].points && s.isCompleted == stories[k].isCompleted
  {
    var r := Retitle(stories, id, title);
    assert forall k :: 0 <= k < |stories| ==> r[k] == RetitleFor(id, title)(stories[k]);
  }

  /** Retitling twice with the same text is retitling once. */
  lemma RetitleIdempotent(stories: seq<Story>, id: Option<int>, title: string)
    ensures Retitle(Retitle(stories, id, title), id, title) == Retitle(stories, id, title)
  {
    var r := Retitle(stories, id, title);
    assert forall k :: 0 <= k < |stories| ==> r[k] == RetitleFor(id, title)(stories[k]);
  }

  /** After one delete a new story takes an id that is still in use, and deleting that id
      then removes both copies; here that empties the whole backlog (each step with two or
      more stories listed, where delete buttons are shown). */
  lemma RepeatedIdEmptiesBacklog(t1: string, t2: string)
    requires Trim(t1) != [] && Trim(t2) != []
    ensures var s1 := AddStory(InitialStories, t1);
      var s2 := RemoveStories(s1, Some(1));
      var s3 := AddStory(s2, t2);
      && |s1| == 2 && |s3| == 2
      && s3[0].id == s3[1].id == Some(2)
      && RemoveStories(s3, Some(2)) == []
  {
    var s1 := AddStory(InitialStories, t1);
    assert s1 == [InitialStories[0], Story(Some(2), Trim(t1), None, false)];
    var s2 := RemoveStories(s1, Some(1));
    assert s1 == [s1[0]] + [s1[1]];
    FilterConcat(IdIsNot(Some(1)), [s1[0]], [s1[1]]);
    assert s2 == [s1[1]];
    var s3 := AddStory(s2, t2);
    assert s3 == [s1[1], Story(Some(2), Trim(t2), None, false)];
    FilterNone(IdIsNot(Some(2)), s3);
  }

  /** The backlog component's state. The UI flags `editingStory` and `editingStoryId` are not
      modelled: they choose which widgets are drawn, and `editingStoryId` also disables the
      click that selects the story being edited. Typing into an input is an assignment to
      its field. */
  class VotingSession {
    var stories: seq<Story>
    var currentStoryIndex: nat
    var storyInput: string
    var newStoryInput: string
    var editInput: string

    ghost predicate Valid()
      reads this
    {
      IndexInRange(stories, currentStoryIndex)
    }

    /** The state once the mount effect has put the first, untitled story in place. */
    constructor ()
      ensures Valid()
      ensures stories == InitialStories && currentStoryIndex == 0
      ensures storyInput == "" && newStoryInput == "" && editInput == ""
    {
      stories := InitialStories;
      currentStoryIndex := 0;
      storyInput, newStoryInput, editInput := "", "", "";
    }

    /** handleStorySubmit: the current story takes the story input as its title. */
    method SubmitStory()
      requires Valid()
      modifies this
      ensures Valid()
      ensures stories == WriteSlot(old(stories), old(currentStoryIndex), SlotAt(old(stories), old(currentStoryIndex)).(title := storyInput))
      ensures currentStoryIndex == old(currentStoryIndex)
      ensures storyInput == old(storyInput) && newStoryInput == old(newStoryInput) && editInput == old(editInput)
    {
      stories := WriteSlot(stories, currentStoryIndex, SlotAt(stories, currentStoryIndex).(title := storyInput));
    }

    /** handleAddNewStory */
    method AddNewStory()
      requires Valid()
      modifies this
      ensures Valid()
      ensures stories == AddStory(old(stories), old(newStoryInput))
      ensures newStoryInput == if Trim(old(newStoryInput)) == [] then old(newStoryInput) else ""
      ensures currentStoryIndex == old(currentStoryIndex)
      ensures storyInput == old(storyInput) && editInput == old(editInput)
    {
      if Trim(newStoryInput) != [] {
        stories := stories + [NewStory(stories, newStoryInput)];
        newStoryInput := "";
      }
    }

    /** handleSelectStory, called with the position of a listed story. */
    method SelectStory(index: nat)
      requires Valid() && index < |stories|
      modifies this
      ensures Valid()
      ensures currentStoryIndex == index
      ensures stories == old(stories) && storyInput == old(storyInput)
      ensures newStoryInput == old(newStoryInput) && editInput == old(editInput)
    {
      currentStoryIndex := index;
    }

    /** handleEditStory: the edit box starts from the story's title. */
    method EditStory(currentTitle: string)
      requires Valid()
      modifies this
      ensures Valid()
      ensures editInput == currentTitle
      ensures stories == old(stories) && currentStoryIndex == old(currentStoryIndex)
      ensures storyInput == old(storyInput) && newStoryInput == old(newStoryInput)
    {
      editInput := currentTitle;
    }

    /** handleSaveEdit */
    method SaveEdit(id: Option<int>)
      requires Valid()
      modifies this
      ensures Valid()
      ensures stories == Retitle(old(stories), id, Trim(old(editInput)))
      ensures editInput == ""
      ensures currentStoryIndex == old(currentStoryIndex)
      ensures storyInput == old(storyInput) && newStoryInput == old(newStoryInput)
    {
      stories := Retitle(stories, id, Trim(editInput));
      editInput := "";
    }

    /** handleCancelEdit */
    method CancelEdit()
      requires Valid()
      modifies this
      ensures Valid()
      ensures editInput == ""
      ensures stories == old(stories) && currentStoryIndex == old(currentStoryIndex)
      ensures storyInput == old(storyInput) && newStoryInput == old(newStoryInput)
    {
      editInput := "";
    }

    /** handleDeleteStory: remove every story with the id; move the index only if it fell off the end. */
    method DeleteStory(id: Option<int>)
      requires Valid()
      modifies this
      ensures Valid()
      ensures stories == RemoveStories(old(stories), id)
      ensures currentStoryIndex == ClampIndex(old(currentStoryIndex), |stories|)
      ensures storyInput == old(storyInput) && newStoryInput == old(newStoryInput) && editInput == old(editInput)
    {
      stories := RemoveStories(stories, id);
      if currentStoryIndex >= |stories| {
        currentStoryIndex := if |stories| >= 1 then |stories| - 1 else 0;
      }
    }

    /** handleCompleteStory: the current story takes the consensus as its points and is
      marked completed, then the room starts a new round. */
    method CompleteStory(room: Room.Room)
      requires Valid() && room.Valid()
      modifies this, room
      ensures Valid() && room.Valid()
      ensures stories == WriteSlot(old(stories), old(currentStoryIndex),
        SlotAt(old(stories), old(currentStoryIndex)).(points := Some(CalculateAverage(old(room.votingResults))), isCompleted := true))
      ensures currentStoryIndex == old(currentStoryIndex)
      ensures storyInput == old(storyInput) && newStoryInput == old(newStoryInput) && editInput == old(editInput)
      ensures !room.isRevealed && room.selectedCard == None && room.votingResults == []
      ensures room.users == Room.ResetVotes(old(room.users))
    {
      var average := CalculateAverage(room.votingResults);
      var completed := SlotAt(stories, currentStoryIndex).(points := Some(average), isCompleted := true);
      stories := WriteSlot(stories, currentStoryIndex, completed);
      room.Reset();
    }
  }
}
