/** The persistent records the bot keeps in `users.json`, `admins.json` and
    `blocked.json`, and the by-id searches and removals it performs on them. */
module Records {
  import opened Common

  /** What Telegram reports about an account (`first_name`, `last_name`, `username`);
      an empty string stands for an absent value. */
  datatype Profile = Profile(firstName: string, lastName: string, username: string)

  /** `first_name` followed by `" " + last_name` when there is a last name. */
  function FullName(p: Profile): string {
    p.firstName + (if p.lastName != "" then " " + p.lastName else "")
  }

  /** `"@" + username`, or `""` when there is none. */
  function Handle(p: Profile): string {
    if p.username != "" then "@" + p.username else ""
  }

  /** The account a message comes from (`message.from_user`). */
  datatype Sender = Sender(id: int, profile: Profile, isBot: bool)

  /** An entry of `users.json`; times are whole seconds. */
  datatype UserRecord = UserRecord(userId: int, fullName: string, username: string, isBot: bool,
                                   totalRequests: nat, lastRequested: int)

  /** An entry of `admins.json`. */
  datatype AdminRecord = AdminRecord(userId: int, fullName: string, username: string)

  /** An entry of `blocked.json`. */
  datatype BlockedRecord = BlockedRecord(userId: int, fullName: string, username: string, reason: string)

  function UserId(u: UserRecord): int { u.userId }
  function AdminId(a: AdminRecord): int { a.userId }
  function BlockedId(b: BlockedRecord): int { b.userId }

  /** Some record of `s` carries `id` (`any(r['UserID'] == id for r in s)`). */
  predicate HasId<T>(s: seq<T>, idOf: T -> int, id: int) {
    exists i :: 0 <= i < |s| && idOf(s[i]) == id
  }

  /** Index of the first record carrying `id` (`next((r for r in s if r['UserID'] == id), None)`). */
  function FirstIndex<T>(s: seq<T>, idOf: T -> int, id: int): (r: Option<nat>)
    ensures r.None? <==> !HasId(s, idOf, id)
    ensures r.Some? ==> r.value < |s| && idOf(s[r.value]) == id
                        && forall j :: 0 <= j < r.value ==> idOf(s[j]) != id
  {
    if s == [] then None
    else if idOf(s[0]) == id then Some(0)
    else
      match FirstIndex(s[1..], idOf, id)
      case None => None
      case Some(k) => Some(k + 1)
  }

  /** The `for` loop over the records that stops at the first one carrying `id`. */
  method FindRecord<T>(s: seq<T>, idOf: T -> int, id: int) returns (r: Option<nat>)
    ensures r == FirstIndex(s, idOf, id)
  {
    var i := 0;
    while i < |s|
      invariant 0 <= i <= |s|
      invariant forall j :: 0 <= j < i ==> idOf(s[j]) != id
    {
      if idOf(s[i]) == id {
        return Some(i);
      }
      i := i + 1;
    }
    return None;
  }

  /** `[r for r in s if r['UserID'] != id]`. */
  function RemoveId<T>(s: seq<T>, idOf: T -> int, id: int): (r: seq<T>)
    ensures |r| <= |s|
    ensures !HasId(r, idOf, id)
    ensures !HasId(s, idOf, id) ==> r == s
    ensures HasId(s, idOf, id) ==> |r| < |s|
  {
    if s == [] then []
    else if idOf(s[0]) == id then RemoveId(s[1..], idOf, id)
    else
      assert HasId(s, idOf, id) ==> HasId(s[1..], idOf, id) by {
        if HasId(s, idOf, id) {
          var i :| 0 <= i < |s| && idOf(s[i]) == id;
          assert idOf(s[1..][i - 1]) == id;
        }
      }
      assert !HasId(s, idOf, id) ==> !HasId(s[1..], idOf, id) by {
        if HasId(s[1..], idOf, id) {
          var i :| 0 <= i < |s| - 1 && idOf(s[1..][i]) == id;
          assert idOf(s[i + 1]) == id;
        }
      }
      [s[0]] + RemoveId(s[1..], idOf, id)
  }

  /** The removal keeps exactly the records of other ids. */
  lemma {:induction false} RemoveIdMembers<T>(s: seq<T>, idOf: T -> int, id: int)
    ensures var r := RemoveId(s, idOf, id);
            (forall i :: 0 <= i < |r| ==> r[i] in s)
            && (forall i :: 0 <= i < |s| && idOf(s[i]) != id ==> s[i] in r)
  {
    if s != [] {
      RemoveIdMembers(s[1..], idOf, id);
      var r := RemoveId(s, idOf, id);
      var rest := RemoveId(s[1..], idOf, id);
      forall i | 0 <= i < |r| ensures r[i] in s {
        var k := if idOf(s[0]) == id then i else i - 1;
        if k >= 0 {
          assert r[i] == rest[k];
          var j :| 0 <= j < |s| - 1 && s[1..][j] == rest[k];
          assert s[j + 1] == r[i];
        } else {
          assert r[i] == s[0];
        }
      }
      forall i | 0 <= i < |s| && idOf(s[i]) != id ensures s[i] in r {
        if i > 0 {
          assert s[i] == s[1..][i - 1];
        }
      }
    }
  }

  /** The removal keeps the surviving records in their order: it works piecewise. */
  lemma {:induction false} RemoveIdAppend<T>(a: seq<T>, b: seq<T>, idOf: T -> int, id: int)
    ensures RemoveId(a + b, idOf, id) == RemoveId(a, idOf, id) + RemoveId(b, idOf, id)
  {
    if a == [] {
      assert a + b == b;
    } else {
      var ab := a + b;
      assert ab[0] == a[0] && ab[1..] == a[1..] + b;
      RemoveIdAppend(a[1..], b, idOf, id);
      var rest := RemoveId(a[1..], idOf, id);
      if idOf(a[0]) == id {
        assert RemoveId(ab, idOf, id) == RemoveId(a[1..] + b, idOf, id);
        assert RemoveId(a, idOf, id) == rest;
      } else {
        assert RemoveId(ab, idOf, id) == [a[0]] + RemoveId(a[1..] + b, idOf, id);
        assert RemoveId(a, idOf, id) == [a[0]] + rest;
        assert [a[0]] + (rest + RemoveId(b, idOf, id)) == ([a[0]] + rest) + RemoveId(b, idOf, id);
      }
    }
  }

  /** Removing by id right after appending a record with a fresh id restores the list. */
  lemma RemoveAfterAppend<T>(s: seq<T>, x: T, idOf: T -> int)
    requires !HasId(s, idOf, idOf(x))
    ensures RemoveId(s + [x], idOf, idOf(x)) == s
  {
    RemoveIdAppend(s, [x], idOf, idOf(x));
    assert RemoveId([x], idOf, idOf(x)) == [];
  }
}
