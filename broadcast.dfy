/** `/notify_all`: the message is copied to every user and admin record, one
    attempt per record, and a failed attempt does not stop the others. */
module Broadcast {
  import opened Records

  /** `users + admins`, by id, in that order (an id on both lists is tried twice). */
  function Targets(users: seq<UserRecord>, admins: seq<AdminRecord>): (r: seq<int>)
    ensures |r| == |users| + |admins|
    ensures forall i :: 0 <= i < |users| ==> r[i] == users[i].userId
    ensures forall i :: 0 <= i < |admins| ==> r[|users| + i] == admins[i].userId
  {
    seq(|users|, i requires 0 <= i < |users| => users[i].userId)
      + seq(|admins|, i requires 0 <= i < |admins| => admins[i].userId)
  }

  /** The targets a copy reaches, in order, given the set of reachable chats. */
  function Reached(targets: seq<int>, reachable: set<int>): (r: seq<int>)
    ensures |r| <= |targets|
    ensures forall t :: t in r <==> t in targets && t in reachable
    // each listed occurrence of a reachable target gets its own copy
    ensures forall t :: multiset(r)[t] == if t in reachable then multiset(targets)[t] else 0
  {
    if targets == [] then []
    else
      var init := targets[..|targets| - 1];
      var last := targets[|targets| - 1];
      assert targets == init + [last];
      Reached(init, reachable) + (if last in reachable then [last] else [])
  }

  /** The delivery loop: each target is attempted once; an unreachable one is skipped. */
  method Notify(targets: seq<int>, reachable: set<int>) returns (delivered: seq<int>)
    ensures delivered == Reached(targets, reachable)
  {
    delivered := [];
    for i := 0 to |targets|
      invariant delivered == Reached(targets[..i], reachable)
    {
      assert targets[..i + 1][..i] == targets[..i];
      if targets[i] in reachable {
        delivered := delivered + [targets[i]];
      }
    }
    assert targets[..|targets|] == targets;
  }
}
