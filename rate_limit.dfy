/** The daily download quota: `check_user_limit`, run when a non-admin starts
    `/download`, and `save_user_data`, run after a non-admin's firmware was delivered. */
module RateLimit {
  import opened Common
  import opened Records

  /** One day, in seconds (`timedelta(days=1)`). */
  const Day: int := 86400

  /** Downloads allowed per window (`TotalRequests >= 2` refuses). */
  const DailyLimit: nat := 2

  /** The record `check_user_limit` creates for a user it has not seen before. */
  function NewUserRecord(s: Sender, now: int): UserRecord {
    UserRecord(s.id, FullName(s.profile), Handle(s.profile), s.isBot, 0, now)
  }

  /** The verdict and the user list written back (unchanged on refusal: nothing is dumped). */
  datatype LimitCheck = LimitCheck(allowed: bool, users: seq<UserRecord>, timeLeft: Option<int>)

  /** `check_user_limit` at time `now`. */
  function CheckUserLimit(users: seq<UserRecord>, s: Sender, now: int): (c: LimitCheck)
    // refused exactly when a record exists, its window is still open and its counter is spent
    ensures !c.allowed <==>
      (HasId(users, UserId, s.id)
       && var u := users[FirstIndex(users, UserId, s.id).value];
          now <= u.lastRequested + Day && u.totalRequests >= DailyLimit)
    ensures !c.allowed ==> c.users == users && c.timeLeft.Some? && c.timeLeft.value >= 0
    // an unknown user gets a fresh record with no requests counted
    ensures !HasId(users, UserId, s.id) ==> c.allowed && c.users == users + [NewUserRecord(s, now)]
    // a known user is allowed with the window restarted at `now`, counter reset if the window had closed
    ensures HasId(users, UserId, s.id) && c.allowed ==>
      (var i := FirstIndex(users, UserId, s.id).value;
       var u := users[i];
       c.users == users[i := u.(lastRequested := now,
                                totalRequests := if now > u.lastRequested + Day then 0 else u.totalRequests)])
    // the time left is reported while the window is open, counted to its end
    ensures c.timeLeft.Some? <==>
      (HasId(users, UserId, s.id)
       && now <= users[FirstIndex(users, UserId, s.id).value].lastRequested + Day)
    ensures c.timeLeft.Some? ==>
      c.timeLeft.value == users[FirstIndex(users, UserId, s.id).value].lastRequested + Day - now
  {
    var (i, pending, timeLeft) :=
      match FirstIndex(users, UserId, s.id)
      case None => (|users|, users + [NewUserRecord(s, now)], None)
      case Some(i) =>
        if now > users[i].lastRequested + Day then (i, users[i := users[i].(totalRequests := 0)], None)
        else (i, users, Some(users[i].lastRequested + Day - now));
    if pending[i].totalRequests >= DailyLimit then LimitCheck(false, users, timeLeft)
    else LimitCheck(true, pending[i := pending[i].(lastRequested := now)], timeLeft)
  }

  /** `save_user_data`: one more completed download for the first record of `id`. */
  function IncrementRequests(users: seq<UserRecord>, id: int): (r: seq<UserRecord>)
    ensures |r| == |users|
    ensures !HasId(users, UserId, id) ==> r == users
    ensures HasId(users, UserId, id) ==>
      (var i := FirstIndex(users, UserId, id).value;
       r[i] == users[i].(totalRequests := users[i].totalRequests + 1)
       && forall j :: 0 <= j < |users| && j != i ==> r[j] == users[j])
  {
    match FirstIndex(users, UserId, id)
    case None => users
    case Some(i) => users[i := users[i].(totalRequests := users[i].totalRequests + 1)]
  }

  /** The first record of an id stays the first after either update. */
  lemma FirstIndexKept(users: seq<UserRecord>, users': seq<UserRecord>, id: int)
    requires HasId(users, UserId, id)
    requires |users'| >= |users|
    requires var i := FirstIndex(users, UserId, id).value;
             users'[i].userId == id && forall j :: 0 <= j < i ==> users'[j] == users[j]
    ensures FirstIndex(users', UserId, id) == FirstIndex(users, UserId, id)
  {
    var i := FirstIndex(users, UserId, id).value;
    assert UserId(users'[i]) == id;
    assert forall j :: 0 <= j < i ==> UserId(users'[j]) != id by {
      forall j | 0 <= j < i ensures UserId(users'[j]) != id {
        assert users'[j] == users[j];
      }
    }
  }

  /** On refusal the time left is at most one day, when the clock did not go back. */
  lemma TimeLeftAtMostDay(users: seq<UserRecord>, s: Sender, now: int)
    requires !CheckUserLimit(users, s, now).allowed
    requires now >= users[FirstIndex(users, UserId, s.id).value].lastRequested
    ensures 0 <= CheckUserLimit(users, s, now).timeLeft.value <= Day
  {
  }

  /** Starting a download does not spend the quota: however often the user starts over
      without completing, the check keeps allowing. */
  lemma {:induction false} EntryDoesNotSpendQuota(users: seq<UserRecord>, s: Sender, t1: int, t2: int)
    requires CheckUserLimit(users, s, t1).allowed
    ensures CheckUserLimit(CheckUserLimit(users, s, t1).users, s, t2).allowed
  {
    var u1 := CheckUserLimit(users, s, t1).users;
    var i := FirstIndex(u1, UserId, s.id);
    if HasId(users, UserId, s.id) {
      FirstIndexKept(users, u1, s.id);
    } else {
      assert u1 == users + [NewUserRecord(s, t1)];
      assert UserId(u1[|users|]) == s.id;
      assert forall j :: 0 <= j < |users| ==> u1[j] == users[j];
      assert i == Some(|users|);
    }
  }

  /** A record that `/start` has just created passes the check, whatever the time:
      it counts no requests yet. */
  lemma FreshRecordAllowed(users: seq<UserRecord>, s: Sender, t0: int, t1: int)
    requires !HasId(users, UserId, s.id)
    ensures CheckUserLimit(users + [NewUserRecord(s, t0)], s, t1).allowed
  {
    var u := users + [NewUserRecord(s, t0)];
    assert UserId(u[|users|]) == s.id;
    assert forall j :: 0 <= j < |users| ==> u[j] == users[j];
    assert FirstIndex(u, UserId, s.id) == Some(|users|);
  }

  /** After an allowed check the user's first record starts its window at `now`
      and counts fewer requests than the limit. */
  lemma CheckedRecord(users: seq<UserRecord>, s: Sender, now: int) returns (i: nat)
    requires CheckUserLimit(users, s, now).allowed
    ensures var c := CheckUserLimit(users, s, now).users;
            FirstIndex(c, UserId, s.id) == Some(i)
            && c[i].lastRequested == now && c[i].totalRequests < DailyLimit
  {
    var c := CheckUserLimit(users, s, now).users;
    if HasId(users, UserId, s.id) {
      FirstIndexKept(users, c, s.id);
      i := FirstIndex(users, UserId, s.id).value;
    } else {
      i := |users|;
      assert c == users + [NewUserRecord(s, now)];
      assert UserId(c[i]) == s.id;
      assert forall j :: 0 <= j < |users| ==> c[j] == users[j];
    }
  }

  /** An allowed check inside the window keeps the counter and restarts the window. */
  lemma CheckInWindow(users: seq<UserRecord>, s: Sender, now: int, i: nat)
    requires FirstIndex(users, UserId, s.id) == Some(i)
    requires now <= users[i].lastRequested + Day
    requires CheckUserLimit(users, s, now).allowed
    ensures var c := CheckUserLimit(users, s, now).users;
            FirstIndex(c, UserId, s.id) == Some(i)
            && c[i].lastRequested == now && c[i].totalRequests == users[i].totalRequests
  {
    FirstIndexKept(users, CheckUserLimit(users, s, now).users, s.id);
  }

  /** Saving a completed download keeps the record's place and window and counts one more. */
  lemma IncrementAt(users: seq<UserRecord>, id: int, i: nat)
    requires FirstIndex(users, UserId, id) == Some(i)
    ensures var r := IncrementRequests(users, id);
            FirstIndex(r, UserId, id) == Some(i)
            && r[i].lastRequested == users[i].lastRequested
            && r[i].totalRequests == users[i].totalRequests + 1
  {
    FirstIndexKept(users, IncrementRequests(users, id), id);
  }

  /** Two completed downloads whose starts lie within one day spend the quota: a third
      start within a day of the second is refused. */
  lemma {:induction false} TwoDownloadsSpendQuota(users: seq<UserRecord>, s: Sender, t1: int, t2: int, t3: int)
    requires t1 <= t2 <= t1 + Day
    requires t3 <= t2 + Day
    requires CheckUserLimit(users, s, t1).allowed
    requires CheckUserLimit(IncrementRequests(CheckUserLimit(users, s, t1).users, s.id), s, t2).allowed
    ensures var u1 := IncrementRequests(CheckUserLimit(users, s, t1).users, s.id);
            var u2 := IncrementRequests(CheckUserLimit(u1, s, t2).users, s.id);
            !CheckUserLimit(u2, s, t3).allowed
  {
    var c1 := CheckUserLimit(users, s, t1).users;
    var i := CheckedRecord(users, s, t1);
    var u1 := IncrementRequests(c1, s.id);
    IncrementAt(c1, s.id, i);
    CheckInWindow(u1, s, t2, i);
    var c2 := CheckUserLimit(u1, s, t2).users;
    IncrementAt(c2, s.id, i);
    var u2 := IncrementRequests(c2, s.id);
    assert u2[i].totalRequests == DailyLimit && u2[i].lastRequested == t2;
  }
}
