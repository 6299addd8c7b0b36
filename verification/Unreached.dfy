/** What HandleMessage adds to noRecip, counted in targets and connectors. */
module Unreached {
  import opened Wire
  import opened Folds
  import opened Relaying

  /** The targets that are registered without room for the message. */
  ghost function Full(targets: seq<Id>, room: map<Id, nat>): set<Id> {
    set id | id in targets && id in room && room[id] == 0
  }

  /** Some target is registered with room for the message. */
  ghost predicate SomebodyTakes(targets: seq<Id>, room: map<Id, nat>) {
    exists id :: id in targets && id in room && room[id] > 0
  }

  /** Somebody gets the message if and only if some target has room, repeated targets included. */
  lemma {:induction false} MatchedIff(targets: seq<Id>, room: map<Id, nat>)
    ensures Matched(targets, room) > 0 <==> SomebodyTakes(targets, room)
  {
    if targets != [] {
      var front, last := targets[..|targets| - 1], targets[|targets| - 1];
      MatchedIff(front, room);
      assert targets == front + [last];
      if last !in front {
        NoOccurrence(front, last);
      }
    }
  }

  lemma {:induction false} NoOccurrence(targets: seq<Id>, id: Id)
    requires id !in targets
    ensures Occurrences(targets, id) == 0
  {
    if targets != [] {
      NoOccurrence(targets[..|targets| - 1], id);
    }
  }

  lemma FullNext(targets: seq<Id>, room: map<Id, nat>)
    requires Distinct(targets) && targets != []
    ensures var (front, last) := (targets[..|targets| - 1], targets[|targets| - 1]);
      |Full(targets, room)| == |Full(front, room)| + if last in room && room[last] == 0 then 1 else 0
  {
    var front, last := targets[..|targets| - 1], targets[|targets| - 1];
    assert targets == front + [last] && last !in front;
    if last in room && room[last] == 0 {
      assert Full(targets, room) == Full(front, room) + {last};
    } else {
      assert Full(targets, room) == Full(front, room);
    }
  }

  /** With distinct targets the dropped pushes are those to targets without room, one for each. */
  lemma {:induction false} DroppedCount(targets: seq<Id>, room: map<Id, nat>)
    requires Distinct(targets)
    ensures Dropped(targets, room) == |Full(targets, room)|
  {
    if targets == [] {
      assert Full(targets, room) == {};
    } else {
      var front, last := targets[..|targets| - 1], targets[|targets| - 1];
      DroppedCount(front, room);
      NoOccurrence(front, last);
      FullNext(targets, room);
    }
  }

  /** A message to distinct targets adds to noRecip the number of targets that are registered without
      room, and one more exactly if no target is registered with room. */
  lemma FailuresOfDistinct(targets: seq<Id>, room: map<Id, nat>)
    requires Distinct(targets) && targets != []
    ensures Failures(targets, room) == |Full(targets, room)| + if SomebodyTakes(targets, room) then 0 else 1
  {
    DroppedCount(targets, room);
    MatchedIff(targets, room);
  }

  /** If none of the distinct targets is registered, noRecip rises by exactly one. */
  lemma NobodyThere(targets: seq<Id>, room: map<Id, nat>)
    requires Distinct(targets) && targets != [] && forall id :: id in targets ==> id !in room
    ensures Failures(targets, room) == 1
  {
    FailuresOfDistinct(targets, room);
    assert Full(targets, room) == {};
  }

  /** The places at which targets names somebody registered. */
  ghost function RegisteredPlaces(targets: seq<Id>, room: map<Id, nat>): set<nat> {
    set i: nat | i < |targets| && targets[i] in room
  }

  /** With repeated targets each naming of somebody registered is one push, taken or dropped. */
  lemma {:induction false} PushesSplit(targets: seq<Id>, room: map<Id, nat>)
    ensures Matched(targets, room) + Dropped(targets, room) == |RegisteredPlaces(targets, room)|
  {
    if targets == [] {
      assert RegisteredPlaces(targets, room) == {};
    } else {
      var front, last := targets[..|targets| - 1], |targets| - 1;
      PushesSplit(front, room);
      assert RegisteredPlaces(targets, room)
        == RegisteredPlaces(front, room) + if targets[last] in room then {last as nat} else {};
    }
  }

  /** What any targets add to noRecip: every naming of somebody registered beyond the copies queued
      (ks are the registered identities), and one more exactly if nobody has room. */
  lemma FailuresOfAny(ks: seq<Id>, targets: seq<Id>, room: map<Id, nat>)
    requires targets != [] && Distinct(ks) && forall k :: k in ks <==> k in room
    ensures Failures(targets, room) == |RegisteredPlaces(targets, room)| - TotalReceived(ks, targets, room)
      + if SomebodyTakes(targets, room) then 0 else 1
  {
    PushesSplit(targets, room);
    MatchedIff(targets, room);
    ReferencesAreCopies(ks, targets, |targets|, room);
    assert targets[..|targets|] == targets;
  }
}
