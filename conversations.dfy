/**
 * A conversation: the list of personas taking part, without duplicates, to which personas
 * are added and from which they are removed, and over which a message is broadcast.
 *
 * The callbacks a conversation makes on its personas (personaConnect, receiveMessage) and
 * the line it prints are recorded, in order, as events.
 */
module Conversations {
  import opened LibC
  import opened Strings
  import opened Personas

  datatype Event =
    | Connect(receiver: Persona, newcomer: Persona)
    | Receive(receiver: Persona, speaker: Persona, message: CText)
    | Print(line: CText)

  predicate NoDuplicates(ps: seq<Persona>) {
    forall i, j :: 0 <= i < j < |ps| ==> ps[i] != ps[j]
  }

  /** The personas of the list other than p, in list order: those a callback loop visits. */
  function Others(ps: seq<Persona>, p: Persona): (r: seq<Persona>)
    ensures |r| <= |ps|
  {
    if ps == [] then []
    else Others(ps[..|ps| - 1], p) + (if ps[|ps| - 1] == p then [] else [ps[|ps| - 1]])
  }

  /** personaConnect on each of qs, about the newcomer p. */
  function Connects(qs: seq<Persona>, p: Persona): (r: seq<Event>)
    ensures |r| == |qs|
    ensures forall k :: 0 <= k < |qs| ==> r[k] == Connect(qs[k], p)
  {
    seq(|qs|, k requires 0 <= k < |qs| => Connect(qs[k], p))
  }

  /** receiveMessage on each of qs, of the speaker's message. */
  function Receives(qs: seq<Persona>, speaker: Persona, message: CText): (r: seq<Event>)
    ensures |r| == |qs|
    ensures forall k :: 0 <= k < |qs| ==> r[k] == Receive(qs[k], speaker, message)
  {
    seq(|qs|, k requires 0 <= k < |qs| => Receive(qs[k], speaker, message))
  }

  /** The list after erasing its first entry equal to p; the list itself when there is none. */
  function RemoveFirst(ps: seq<Persona>, p: Persona): seq<Persona> {
    if ps == [] then []
    else if ps[0] == p then ps[1..]
    else [ps[0]] + RemoveFirst(ps[1..], p)
  }

  class Conversation {
    var personas: seq<Persona>
    /** The callbacks made and the lines printed, oldest first. */
    var events: seq<Event>

    constructor ()
      ensures personas == [] && events == []
    {
      personas := [];
      events := [];
    }

    predicate Valid()
      reads this
    {
      NoDuplicates(personas)
    }

    /**
     * addPersona: a persona already in the list changes nothing; a new one is appended and
     * every other persona, in list order, is told that it has connected.
     */
    method AddPersona(persona: Persona)
      modifies this
      ensures persona in old(personas) ==> personas == old(personas) && events == old(events)
      ensures persona !in old(personas) ==>
        personas == old(personas) + [persona] &&
        events == old(events) + Connects(Others(personas, persona), persona)
      ensures old(Valid()) ==> Valid()
    {
      var found := Find(personas, persona);
      if found {
        return;
      }
      AppendFresh(personas, persona);
      personas := personas + [persona];
      var notes := ConnectAll(personas, persona);
      events := events + notes;
    }

    /** removePersona: the first entry equal to the persona is erased, the rest kept in order. */
    method RemovePersona(persona: Persona)
      modifies this
      ensures personas == RemoveFirst(old(personas), persona)
      ensures events == old(events)
      ensures old(Valid()) ==> Valid() && persona !in personas
    {
      if Valid() {
        RemoveKeepsNoDuplicates(personas, persona);
      }
      var i := 0;
      while i < |personas|
        invariant 0 <= i <= |personas|
        invariant forall j :: 0 <= j < i ==> personas[j] != persona
      {
        if personas[i] == persona {
          RemoveFirstAt(personas, persona, i);
          personas := personas[..i] + personas[i + 1..];
          return;
        }
        i := i + 1;
      }
      RemoveAbsent(personas, persona);
    }

    /**
     * addMessage: the line "name> message" is printed, then every persona other than the
     * speaker, in list order, receives the message.
     */
    method AddMessage(speaker: Persona, message: String)
      modifies this
      ensures personas == old(personas)
      ensures events == old(events) + [Print(SayLine(speaker.name, message.CStr()))] +
        Receives(Others(personas, speaker), speaker, message.CStr())
    {
      var notes := ReceiveAll(personas, speaker, message.CStr());
      events := events + [Print(SayLine(speaker.name, message.CStr()))] + notes;
    }
  }

  /** The scan of addPersona for a persona already in the list. */
  method Find(ps: seq<Persona>, p: Persona) returns (found: bool)
    ensures found <==> p in ps
  {
    var i := 0;
    while i < |ps|
      invariant 0 <= i <= |ps|
      invariant forall j :: 0 <= j < i ==> ps[j] != p
    {
      if ps[i] == p {
        return true;
      }
      i := i + 1;
    }
    return false;
  }

  /** The notify loop of addPersona: personaConnect on each persona other than p, in order. */
  method ConnectAll(ps: seq<Persona>, p: Persona) returns (notes: seq<Event>)
    ensures notes == Connects(Others(ps, p), p)
  {
    notes := [];
    var i := 0;
    while i < |ps|
      invariant 0 <= i <= |ps|
      invariant notes == Connects(Others(ps[..i], p), p)
    {
      OthersSnoc(ps[..i], ps[i], p);
      assert ps[..i + 1] == ps[..i] + [ps[i]];
      if ps[i] != p {
        ConnectsSnoc(Others(ps[..i], p), ps[i], p);
        notes := notes + [Connect(ps[i], p)];
      }
      i := i + 1;
    }
    assert ps[..i] == ps;
  }

  /** The loop of addMessage: receiveMessage on each persona other than the speaker, in order. */
  method ReceiveAll(ps: seq<Persona>, speaker: Persona, message: CText) returns (notes: seq<Event>)
    ensures notes == Receives(Others(ps, speaker), speaker, message)
  {
    notes := [];
    var i := 0;
    while i < |ps|
      invariant 0 <= i <= |ps|
      invariant notes == Receives(Others(ps[..i], speaker), speaker, message)
    {
      OthersSnoc(ps[..i], ps[i], speaker);
      assert ps[..i + 1] == ps[..i] + [ps[i]];
      if ps[i] != speaker {
        ReceivesSnoc(Others(ps[..i], speaker), ps[i], speaker, message);
        notes := notes + [Receive(ps[i], speaker, message)];
      }
      i := i + 1;
    }
    assert ps[..i] == ps;
  }

  lemma OthersSnoc(ps: seq<Persona>, q: Persona, p: Persona)
    ensures Others(ps + [q], p) == Others(ps, p) + (if q == p then [] else [q])
  {
    assert (ps + [q])[..|ps|] == ps;
  }

  lemma ConnectsSnoc(qs: seq<Persona>, q: Persona, p: Persona)
    ensures Connects(qs + [q], p) == Connects(qs, p) + [Connect(q, p)]
  {
  }

  lemma ReceivesSnoc(qs: seq<Persona>, q: Persona, speaker: Persona, message: CText)
    ensures Receives(qs + [q], speaker, message) == Receives(qs, speaker, message) + [Receive(q, speaker, message)]
  {
  }

  /** Appending a persona not yet in a list without duplicates keeps it without duplicates. */
  lemma AppendFresh(ps: seq<Persona>, p: Persona)
    ensures NoDuplicates(ps) && p !in ps ==> NoDuplicates(ps + [p])
  {
  }

  /** The callback loops visit exactly the personas of the list other than p. */
  lemma {:induction false} OthersMembers(ps: seq<Persona>, p: Persona, q: Persona)
    ensures q in Others(ps, p) <==> q in ps && q != p
  {
    if ps != [] {
      var init := ps[..|ps| - 1];
      OthersMembers(init, p, q);
      assert ps == init + [ps[|ps| - 1]];
    }
  }

  /** Without p in the list, the loops visit the whole list, in order. */
  lemma {:induction false} OthersAbsent(ps: seq<Persona>, p: Persona)
    requires p !in ps
    ensures Others(ps, p) == ps
  {
    if ps != [] {
      var init := ps[..|ps| - 1];
      assert ps == init + [ps[|ps| - 1]];
      OthersAbsent(init, p);
    }
  }

  /** So a newcomer is never told of its own arrival, and everyone already there is, in order. */
  lemma NewcomerNotNotified(ps: seq<Persona>, p: Persona)
    requires p !in ps
    ensures Connects(Others(ps + [p], p), p) == Connects(ps, p)
    ensures forall e :: e in Connects(Others(ps + [p], p), p) ==> e.receiver != p
  {
    OthersSnoc(ps, p, p);
    OthersAbsent(ps, p);
  }

  /** Each persona a loop visits is visited once, when the list has no duplicates. */
  lemma {:induction false} OthersNoDuplicates(ps: seq<Persona>, p: Persona)
    requires NoDuplicates(ps)
    ensures NoDuplicates(Others(ps, p))
  {
    if ps != [] {
      var init := ps[..|ps| - 1];
      var last := ps[|ps| - 1];
      assert NoDuplicates(init);
      OthersNoDuplicates(init, p);
      OthersMembers(init, p, last);
      assert last !in init;
    }
  }

  lemma RemoveFirstAt(ps: seq<Persona>, p: Persona, i: nat)
    requires i < |ps| && ps[i] == p && forall j :: 0 <= j < i ==> ps[j] != p
    ensures RemoveFirst(ps, p) == ps[..i] + ps[i + 1..]
  {
    if i > 0 {
      RemoveFirstAt(ps[1..], p, i - 1);
      assert ps[1..][..i - 1] == ps[1..i];
      assert ps[..i] == [ps[0]] + ps[1..i];
    }
  }

  lemma {:induction false} RemoveAbsent(ps: seq<Persona>, p: Persona)
    requires p !in ps
    ensures RemoveFirst(ps, p) == ps
  {
    if ps != [] {
      assert ps[0] != p;
      RemoveAbsent(ps[1..], p);
    }
  }

  /** Removing takes out one occurrence of p when there is one, and nothing else. */
  lemma {:induction false} RemoveFirstCount(ps: seq<Persona>, p: Persona)
    ensures multiset(RemoveFirst(ps, p)) == multiset(ps) - multiset{p}
  {
    if ps != [] {
      RemoveFirstCount(ps[1..], p);
      assert ps == [ps[0]] + ps[1..];
      if ps[0] != p {
        assert multiset(RemoveFirst(ps, p)) == multiset{ps[0]} + multiset(RemoveFirst(ps[1..], p));
      }
    }
  }

  /** On a list without duplicates, removing p leaves exactly the others, in order. */
  lemma {:induction false} RemoveIsOthers(ps: seq<Persona>, p: Persona)
    requires NoDuplicates(ps)
    ensures RemoveFirst(ps, p) == Others(ps, p)
  {
    var i := 0;
    while i < |ps| && ps[i] != p
      invariant 0 <= i <= |ps| && forall j :: 0 <= j < i ==> ps[j] != p
    {
      i := i + 1;
    }
    if i == |ps| {
      RemoveAbsent(ps, p);
      OthersAbsent(ps, p);
    } else {
      RemoveFirstAt(ps, p, i);
      assert forall j :: i < j < |ps| ==> ps[i] != ps[j];
      OthersSplit(ps, p, i);
    }
  }

  /** Others of a list whose only p is at index i: the list without index i. */
  lemma OthersSplit(ps: seq<Persona>, p: Persona, i: nat)
    requires i < |ps| && ps[i] == p && forall j :: 0 <= j < |ps| && j != i ==> ps[j] != p
    ensures Others(ps, p) == ps[..i] + ps[i + 1..]
  {
    var a := ps[..i];
    var b := ps[i + 1..];
    assert ps == a + [p] + b;
    assert p !in a by {
      forall k | 0 <= k < |a|
        ensures a[k] != p
      {
        assert a[k] == ps[k];
      }
    }
    assert p !in b by {
      forall k | 0 <= k < |b|
        ensures b[k] != p
      {
        assert b[k] == ps[i + 1 + k];
      }
    }
    OthersAppend(a + [p], b, p);
    OthersSnoc(a, p, p);
    OthersAbsent(a, p);
    OthersAbsent(b, p);
  }

  lemma {:induction false} OthersAppend(ps: seq<Persona>, qs: seq<Persona>, p: Persona)
    ensures Others(ps + qs, p) == Others(ps, p) + Others(qs, p)
    decreases |qs|
  {
    if qs == [] {
      assert ps + qs == ps;
    } else {
      var init := qs[..|qs| - 1];
      var last := qs[|qs| - 1];
      assert ps + qs == (ps + init) + [last];
      assert qs == init + [last];
      OthersSnoc(ps + init, last, p);
      OthersSnoc(init, last, p);
      OthersAppend(ps, init, p);
    }
  }

  /** Removing keeps a list without duplicates without them, and p is then gone. */
  lemma RemoveKeepsNoDuplicates(ps: seq<Persona>, p: Persona)
    requires NoDuplicates(ps)
    ensures NoDuplicates(RemoveFirst(ps, p)) && p !in RemoveFirst(ps, p)
  {
    RemoveIsOthers(ps, p);
    OthersNoDuplicates(ps, p);
    OthersMembers(ps, p, p);
  }
}
