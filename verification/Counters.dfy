/** The counters over runs: order ids are handed out one by one (core/src/engine/matching_engine.cpp:292-294),
    and the user list holds exactly the users that were let in (core/src/user/user_manager.cpp:9-17 and
    127-146, one call at a time). */
module Counters {
  import opened Types
  import opened Exchange

  function Allocations(steps: seq<Step>): nat {
    if steps == [] then 0 else (if steps[0].Allocate? then 1 else 0) + Allocations(steps[1..])
  }

  /** The users a run lets in: those it gives the next id, and those that come back under their own. */
  function Enrolled(s: State, steps: seq<Step>): set<int>
    decreases |steps|
  {
    if steps == [] then {}
    else
      (match steps[0]
       case Connect => {s.ledger.nextUser}
       case Reconnect(uid) => if uid > 0 then {uid} else {s.ledger.nextUser}
       case _ => {})
      + Enrolled(Apply(s, steps[0]), steps[1..])
  }

  /** Exactly these users are listed, each once, and the next id is one above the largest. */
  ghost predicate Lists(l: Ledger, ids: set<int>) {
    && (forall u :: u in l.users <==> u in ids) && NoDuplicates(l.users)
    && (forall u <- ids :: 0 < u < l.nextUser)
    && (l.nextUser == 1 || l.nextUser - 1 in ids)
  }

  lemma PlaceCounters(s: State, o: Order)
    ensures var t := Process(s, o).0;
            t.nextId == s.nextId && t.ledger.users == s.ledger.users && t.ledger.nextUser == s.ledger.nextUser
  {
    MatchFrame(Announced(s, o), o, s.journal.batchSeq);
  }

  /** Order ids are consecutive: only an allocation moves the counter, and by one. */
  lemma {:induction false} OrderIdsConsecutive(s: State, steps: seq<Step>)
    ensures Run(s, steps).nextId == s.nextId + Allocations(steps)
    decreases |steps|
  {
    if steps != [] {
      if steps[0].Place? { PlaceCounters(s, steps[0].order); }
      OrderIdsConsecutive(Apply(s, steps[0]), steps[1..]);
    }
  }

  lemma NewUserLists(l: Ledger, ids: set<int>)
    requires Lists(l, ids) && 0 < l.nextUser
    ensures Lists(NewUser(l), ids + {l.nextUser}) && 0 < NewUser(l).nextUser
  {
    assert l.nextUser !in l.users;
    forall i | 0 <= i < |l.users| ensures l.users[i] in l.users {}
  }

  lemma ReconnectLists(l: Ledger, ids: set<int>, uid: int)
    requires Lists(l, ids) && 0 < l.nextUser && uid > 0
    ensures Lists(ReconnectUser(l, uid), ids + {uid}) && 0 < ReconnectUser(l, uid).nextUser
  {
    forall i | 0 <= i < |l.users| ensures l.users[i] in l.users {}
  }

  /** After any run the user list holds exactly the users it let in, each once, and the next user id is
      one above the largest of them. */
  lemma {:induction false} UsersListed(s: State, steps: seq<Step>, ids: set<int>)
    requires Lists(s.ledger, ids) && 0 < s.ledger.nextUser
    ensures Lists(Run(s, steps).ledger, ids + Enrolled(s, steps))
    decreases |steps|
  {
    if steps == [] {
      assert ids + {} == ids;
    } else {
      var t := Apply(s, steps[0]);
      var now := match steps[0]
                 case Connect => {s.ledger.nextUser}
                 case Reconnect(uid) => if uid > 0 then {uid} else {s.ledger.nextUser}
                 case _ => {};
      match steps[0] {
        case Connect => NewUserLists(s.ledger, ids);
        case Reconnect(uid) =>
          if uid > 0 { ReconnectLists(s.ledger, ids, uid); } else { NewUserLists(s.ledger, ids); }
        case Place(o) => PlaceCounters(s, o);
        case _ =>
      }
      assert ids + now + Enrolled(t, steps[1..]) == ids + Enrolled(s, steps);
      UsersListed(t, steps[1..], ids + now);
    }
  }
}
