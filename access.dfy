/** Who may do what: the super-admin list read from the `SUPER_ADMIN` setting, the
    admin and blocked lists, and the commands that promote, demote, block and unblock. */
module Access {
  import opened Common
  import opened Text
  import opened Records
  import opened Events

  // ---------------------------------------------------------------------------
  // super_admins()

  /** An entry on which `int(entry.strip())` raises: not blank, and not an integer. */
  predicate BadEntry(entry: string) {
    Strip(entry) != "" && ParseInt(Strip(entry)).None?
  }

  /** Strip each comma-separated entry, skip the empty ones, `int()` the rest;
      `None` where `int()` raises. */
  function ParseIds(entries: seq<string>): (r: Option<seq<int>>)
    ensures r.None? <==> exists k :: 0 <= k < |entries| && BadEntry(entries[k])
    ensures r.Some? ==> |r.value| <= |entries|
  {
    if entries == [] then Some([])
    else
      var entry := Strip(entries[0]);
      var rest := ParseIds(entries[1..]);
      if entry == "" then rest
      else
        match ParseInt(entry)
        case None => None
        case Some(id) => if rest.None? then None else Some([id] + rest.value)
  }

  /** `super_admins()` for the value of the `SUPER_ADMIN` setting: rejected exactly when
      some comma-separated piece is neither blank nor an integer once stripped. */
  function SuperAdmins(setting: string): (r: Option<seq<int>>)
    ensures r.None? ==> exists k :: 0 <= k < |SplitOn(setting, ',')| && BadEntry(SplitOn(setting, ',')[k])
    ensures r.Some? ==> forall k :: 0 <= k < |SplitOn(setting, ',')| ==> !BadEntry(SplitOn(setting, ',')[k])
    ensures r.Some? ==> |r.value| <= |SplitOn(setting, ',')|
  {
    ParseIds(SplitOn(setting, ','))
  }

  function ShowIds(ids: seq<int>): (r: seq<string>)
    ensures |r| == |ids| && forall k :: 0 <= k < |ids| ==> r[k] == ShowInt(ids[k])
  {
    seq(|ids|, k requires 0 <= k < |ids| => ShowInt(ids[k]))
  }

  lemma {:induction false} ParseShownIds(ids: seq<int>)
    ensures ParseIds(ShowIds(ids)) == Some(ids)
  {
    if ids != [] {
      var shown := ShowIds(ids);
      var entry := shown[0];
      assert entry == ShowInt(ids[0]);
      StripUnpadded(entry);
      ParseShow(ids[0]);
      assert shown[1..] == ShowIds(ids[1..]);
      ParseShownIds(ids[1..]);
      assert ParseIds(shown) == Some([ids[0]] + ids[1..]);
      assert [ids[0]] + ids[1..] == ids;
    }
  }

  /** Writing ids comma-separated and reading them back gives the same ids. */
  lemma SuperAdminsRoundTrip(ids: seq<int>)
    ensures SuperAdmins(JoinOn(ShowIds(ids), ',')) == Some(ids)
  {
    var shown := ShowIds(ids);
    ParseShownIds(ids);
    if ids == [] {
      assert JoinOn(shown, ',') == "";
      assert SplitOn("", ',') == [""];
      BlankEntrySkipped("", []);
      assert ParseIds([""]) == ParseIds([]);
    } else {
      forall k | 0 <= k < |shown| ensures ',' !in shown[k] {
        var s := ShowInt(ids[k]);
        assert forall i :: 0 <= i < |s| ==> s[i] != ',';
      }
      SplitJoin(shown, ',');
      assert SplitOn(JoinOn(shown, ','), ',') == shown;
    }
  }

  /** A non-blank entry contributes the integer it reads as once stripped, in its place. */
  lemma PaddedEntryParsed(entry: string, n: int, rest: seq<string>)
    requires ParseInt(Strip(entry)) == Some(n)
    requires ParseIds(rest).Some?
    ensures ParseIds([entry] + rest) == Some([n] + ParseIds(rest).value)
  {
    assert ([entry] + rest)[1..] == rest;
  }

  /** Blank entries (`"1, ,2"`, a trailing comma) are skipped. */
  lemma BlankEntrySkipped(entry: string, rest: seq<string>)
    requires AllSpace(entry)
    ensures ParseIds([entry] + rest) == ParseIds(rest)
  {
    assert ([entry] + rest)[1..] == rest;
  }

  // ---------------------------------------------------------------------------
  // is_user_admin_by_id, is_user_blocked, is_user_id_valid

  /** `is_user_admin_by_id`: listed in `admins.json` or a super admin. */
  function IsAdminById(admins: seq<AdminRecord>, superAdmins: seq<int>, id: int): (r: bool)
    ensures id in superAdmins ==> r
    ensures r <==> id in superAdmins || exists i :: 0 <= i < |admins| && admins[i].userId == id
  {
    HasId(admins, AdminId, id) || id in superAdmins
  }

  /** `is_user_blocked`: the reason of the first blocked record of `id`, if any. */
  function BlockReason(blocked: seq<BlockedRecord>, id: int): (r: Option<string>)
    ensures r.None? <==> !HasId(blocked, BlockedId, id)
    ensures r.Some? ==> exists i :: 0 <= i < |blocked| && blocked[i].userId == id && blocked[i].reason == r.value
                                    && forall j :: 0 <= j < i ==> blocked[j].userId != id
  {
    match FirstIndex(blocked, BlockedId, id)
    case None => None
    case Some(i) => Some(blocked[i].reason)
  }

  datatype IdCheck = BadId | UnknownId | ValidId(id: int)

  /** `is_user_id_valid(token, chat, check_exist=True)`: an integer that `get_chat`
      resolves; `directory` holds the accounts `get_chat` can find. */
  function CheckUserId(token: string, directory: map<int, Profile>): (r: IdCheck)
    ensures r.ValidId? <==> ParseInt(token).Some? && ParseInt(token).value in directory
    ensures r.ValidId? ==> r.id == ParseInt(token).value
    ensures r.BadId? <==> ParseInt(token).None?
  {
    match ParseInt(token)
    case None => BadId
    case Some(id) => if id in directory then ValidId(id) else UnknownId
  }

  function AdminRecordFor(id: int, p: Profile): AdminRecord {
    AdminRecord(id, FullName(p), Handle(p))
  }

  function BlockedRecordFor(id: int, p: Profile, reason: string): BlockedRecord {
    BlockedRecord(id, FullName(p), Handle(p), reason)
  }

  // ---------------------------------------------------------------------------
  // /add_admin, /remove_admin

  /** `add_admin`, sent in `chat` with command text `text`. The "already an admin" test
      compares the id with the admin records themselves, so it only ever sees super admins. */
  function AddAdminStep(admins: seq<AdminRecord>, blocked: seq<BlockedRecord>, superAdmins: seq<int>,
                        chat: int, text: string, directory: map<int, Profile>): (r: (seq<AdminRecord>, Reply))
    ensures r.1 != Promoted ==> r.0 == admins
    ensures r.1 == Promoted ==>
      chat in superAdmins && |Words(text)| >= 2 && ParseInt(Words(text)[1]).Some?
      && var id := ParseInt(Words(text)[1]).value;
         id in directory && id !in superAdmins && !HasId(blocked, BlockedId, id)
         && r.0 == admins + [AdminRecordFor(id, directory[id])]
    // each reply answers exactly one outcome of the guards, checked in this order
    ensures r.1 == OnlySuperAdmin <==> chat !in superAdmins
    ensures r.1 == Usage <==> chat in superAdmins && |Words(text)| < 2
    ensures chat in superAdmins && |Words(text)| >= 2 ==>
      var a := CheckUserId(Words(text)[1], directory);
      (r.1 == InvalidUserId <==> a.BadId?)
      && (r.1 == UserNotFound <==> a.UnknownId?)
      && (r.1 == CannotPromoteBlocked <==> a.ValidId? && HasId(blocked, BlockedId, a.id))
      && (r.1 == AlreadyAdmin <==> a.ValidId? && !HasId(blocked, BlockedId, a.id) && a.id in superAdmins)
      && (r.1 == Promoted <==> a.ValidId? && !HasId(blocked, BlockedId, a.id) && a.id !in superAdmins)
  {
    if chat !in superAdmins then (admins, OnlySuperAdmin)
    else
      var params := Words(text);
      if |params| < 2 then (admins, Usage)
      else
        match CheckUserId(params[1], directory)
        case BadId => (admins, InvalidUserId)
        case UnknownId => (admins, UserNotFound)
        case ValidId(id) =>
          if HasId(blocked, BlockedId, id) then (admins, CannotPromoteBlocked)
          else if id !in superAdmins then (admins + [AdminRecordFor(id, directory[id])], Promoted)
          else (admins, AlreadyAdmin)
  }

  /** `remove_admin`: super admins cannot be demoted; otherwise every record of the id goes. */
  function RemoveAdminStep(admins: seq<AdminRecord>, superAdmins: seq<int>, chat: int, text: string)
    : (r: (seq<AdminRecord>, Reply))
    ensures r.1 != Demoted ==> r.0 == admins
    ensures r.1 == Demoted ==>
      chat in superAdmins && |Words(text)| >= 2 && ParseInt(Words(text)[1]).Some?
      && var id := ParseInt(Words(text)[1]).value;
         id !in superAdmins && HasId(admins, AdminId, id) && !HasId(r.0, AdminId, id)
         && r.0 == RemoveId(admins, AdminId, id)
    // each reply answers exactly one outcome of the guards, checked in this order
    ensures r.1 == OnlySuperAdmin <==> chat !in superAdmins
    ensures r.1 == Usage <==> chat in superAdmins && |Words(text)| < 2
    ensures chat in superAdmins && |Words(text)| >= 2 ==>
      var n := ParseInt(Words(text)[1]);
      (r.1 == InvalidUserId <==> n.None?)
      && (r.1 == CannotDemoteSuperAdmin <==> n.Some? && n.value in superAdmins)
      && (r.1 == Demoted <==> n.Some? && n.value !in superAdmins && HasId(admins, AdminId, n.value))
      && (r.1 == AlreadyNotAdmin <==> n.Some? && n.value !in superAdmins && !HasId(admins, AdminId, n.value))
  {
    if chat !in superAdmins then (admins, OnlySuperAdmin)
    else
      var params := Words(text);
      if |params| < 2 then (admins, Usage)
      else
        match ParseInt(params[1])
        case None => (admins, InvalidUserId)
        case Some(id) =>
          if id in superAdmins then (admins, CannotDemoteSuperAdmin)
          else if HasId(admins, AdminId, id) then
            var r := RemoveId(admins, AdminId, id);
            assert !HasId(r, AdminId, id);
            (r, Demoted)
          else (admins, AlreadyNotAdmin)
  }

  /** The promotion decision ignores the admin list: promoting an ordinary admin again
      succeeds and appends a second record. */
  lemma PromotionIgnoresAdminList(admins: seq<AdminRecord>, others: seq<AdminRecord>, blocked: seq<BlockedRecord>,
                                  superAdmins: seq<int>, chat: int, text: string, directory: map<int, Profile>)
    ensures AddAdminStep(admins, blocked, superAdmins, chat, text, directory).1
         == AddAdminStep(others, blocked, superAdmins, chat, text, directory).1
  {
  }

  /** Promoting the same ordinary user twice leaves two records of that user. */
  lemma {:induction false} PromoteTwice(admins: seq<AdminRecord>, blocked: seq<BlockedRecord>,
                                        superAdmins: seq<int>, chat: int, text: string, directory: map<int, Profile>)
    requires AddAdminStep(admins, blocked, superAdmins, chat, text, directory).1 == Promoted
    ensures var once := AddAdminStep(admins, blocked, superAdmins, chat, text, directory).0;
            var twice := AddAdminStep(once, blocked, superAdmins, chat, text, directory);
            twice.1 == Promoted && |twice.0| == |admins| + 2
            && twice.0[|admins|] == twice.0[|admins| + 1]
  {
    PromotionIgnoresAdminList(admins, AddAdminStep(admins, blocked, superAdmins, chat, text, directory).0,
                              blocked, superAdmins, chat, text, directory);
  }

  /** Demoting a user just promoted (who was not an admin before) restores the admin list. */
  lemma PromoteThenDemote(admins: seq<AdminRecord>, blocked: seq<BlockedRecord>, superAdmins: seq<int>,
                          chat: int, addText: string, removeText: string, directory: map<int, Profile>)
    requires AddAdminStep(admins, blocked, superAdmins, chat, addText, directory).1 == Promoted
    requires !HasId(admins, AdminId, ParseInt(Words(addText)[1]).value)
    requires |Words(removeText)| >= 2 && Words(removeText)[1] == Words(addText)[1]
    ensures RemoveAdminStep(AddAdminStep(admins, blocked, superAdmins, chat, addText, directory).0,
                            superAdmins, chat, removeText) == (admins, Demoted)
  {
    var id := ParseInt(Words(addText)[1]).value;
    var added := AdminRecordFor(id, directory[id]);
    RemoveAfterAppend(admins, added, AdminId);
    assert HasId(admins + [added], AdminId, id) by {
      assert AdminId((admins + [added])[|admins|]) == id;
    }
  }

  // ---------------------------------------------------------------------------
  // /block_user, /unblock_user

  /** `block_user`, sent by `sender`: admins are refused, as are ids already blocked;
      the reason is the words after the user id, joined by single spaces. */
  function BlockUserStep(admins: seq<AdminRecord>, blocked: seq<BlockedRecord>, superAdmins: seq<int>,
                         sender: int, text: string, directory: map<int, Profile>): (r: (seq<BlockedRecord>, Reply))
    ensures r.1 != BlockedUser ==> r.0 == blocked
    ensures r.1 == BlockedUser ==>
      IsAdminById(admins, superAdmins, sender) && |Words(text)| >= 3 && ParseInt(Words(text)[1]).Some?
      && var id := ParseInt(Words(text)[1]).value;
         id in directory && !IsAdminById(admins, superAdmins, id) && !HasId(blocked, BlockedId, id)
         && r.0 == blocked + [BlockedRecordFor(id, directory[id], JoinWords(Words(text)[2..]))]
    // each reply answers exactly one outcome of the guards, checked in this order
    ensures r.1 == NotAdmin <==> !IsAdminById(admins, superAdmins, sender)
    ensures r.1 == Usage <==> IsAdminById(admins, superAdmins, sender) && |Words(text)| < 3
    ensures IsAdminById(admins, superAdmins, sender) && |Words(text)| >= 3 ==>
      var a := CheckUserId(Words(text)[1], directory);
      (r.1 == InvalidUserId <==> a.BadId?)
      && (r.1 == UserNotFound <==> a.UnknownId?)
      && (r.1 == CannotBlockAdmin <==> a.ValidId? && IsAdminById(admins, superAdmins, a.id))
      && (r.1 == AlreadyBlocked <==>
            a.ValidId? && !IsAdminById(admins, superAdmins, a.id) && HasId(blocked, BlockedId, a.id))
      && (r.1 == BlockedUser <==>
            a.ValidId? && !IsAdminById(admins, superAdmins, a.id) && !HasId(blocked, BlockedId, a.id))
  {
    if !IsAdminById(admins, superAdmins, sender) then (blocked, NotAdmin)
    else
      var params := Words(text);
      if |params| < 3 then (blocked, Usage)
      else
        match CheckUserId(params[1], directory)
        case BadId => (blocked, InvalidUserId)
        case UnknownId => (blocked, UserNotFound)
        case ValidId(id) =>
          if IsAdminById(admins, superAdmins, id) then (blocked, CannotBlockAdmin)
          else if HasId(blocked, BlockedId, id) then (blocked, AlreadyBlocked)
          else (blocked + [BlockedRecordFor(id, directory[id], JoinWords(params[2..]))], BlockedUser)
  }

  /** `unblock_user`: every blocked record of the id goes, the others stay in order. */
  function UnblockUserStep(admins: seq<AdminRecord>, blocked: seq<BlockedRecord>, superAdmins: seq<int>,
                           sender: int, text: string): (r: (seq<BlockedRecord>, Reply))
    ensures r.1 != UnblockedUser ==> r.0 == blocked
    ensures r.1 == UnblockedUser ==>
      IsAdminById(admins, superAdmins, sender) && |Words(text)| >= 2 && ParseInt(Words(text)[1]).Some?
      && var id := ParseInt(Words(text)[1]).value;
         HasId(blocked, BlockedId, id) && r.0 == RemoveId(blocked, BlockedId, id)
    // each reply answers exactly one outcome of the guards, checked in this order
    ensures r.1 == NotAdmin <==> !IsAdminById(admins, superAdmins, sender)
    ensures r.1 == Usage <==> IsAdminById(admins, superAdmins, sender) && |Words(text)| < 2
    ensures IsAdminById(admins, superAdmins, sender) && |Words(text)| >= 2 ==>
      var n := ParseInt(Words(text)[1]);
      (r.1 == InvalidUserId <==> n.None?)
      && (r.1 == NotBlocked <==> n.Some? && !HasId(blocked, BlockedId, n.value))
      && (r.1 == UnblockedUser <==> n.Some? && HasId(blocked, BlockedId, n.value))
  {
    if !IsAdminById(admins, superAdmins, sender) then (blocked, NotAdmin)
    else
      var params := Words(text);
      if |params| < 2 then (blocked, Usage)
      else
        match ParseInt(params[1])
        case None => (blocked, InvalidUserId)
        case Some(id) =>
          if !HasId(blocked, BlockedId, id) then (blocked, NotBlocked)
          else (RemoveId(blocked, BlockedId, id), UnblockedUser)
  }

  /** A promoted user passes the admin check from then on. */
  lemma PromotionGrantsAdmin(admins: seq<AdminRecord>, blocked: seq<BlockedRecord>, superAdmins: seq<int>,
                             chat: int, text: string, directory: map<int, Profile>)
    requires AddAdminStep(admins, blocked, superAdmins, chat, text, directory).1 == Promoted
    ensures IsAdminById(AddAdminStep(admins, blocked, superAdmins, chat, text, directory).0,
                        superAdmins, ParseInt(Words(text)[1]).value)
  {
    var after := AddAdminStep(admins, blocked, superAdmins, chat, text, directory).0;
    assert after[|admins|].userId == ParseInt(Words(text)[1]).value;
  }

  /** A demoted user fails the admin check from then on. */
  lemma DemotionRevokesAdmin(admins: seq<AdminRecord>, superAdmins: seq<int>, chat: int, text: string)
    requires RemoveAdminStep(admins, superAdmins, chat, text).1 == Demoted
    ensures !IsAdminById(RemoveAdminStep(admins, superAdmins, chat, text).0,
                         superAdmins, ParseInt(Words(text)[1]).value)
  {
  }

  /** A blocked user is turned away from then on, with the reason given. */
  lemma BlockingTakesEffect(admins: seq<AdminRecord>, blocked: seq<BlockedRecord>, superAdmins: seq<int>,
                            sender: int, text: string, directory: map<int, Profile>)
    requires BlockUserStep(admins, blocked, superAdmins, sender, text, directory).1 == BlockedUser
    ensures BlockReason(BlockUserStep(admins, blocked, superAdmins, sender, text, directory).0,
                        ParseInt(Words(text)[1]).value) == Some(JoinWords(Words(text)[2..]))
  {
    var id := ParseInt(Words(text)[1]).value;
    var after := BlockUserStep(admins, blocked, superAdmins, sender, text, directory).0;
    assert BlockedId(after[|blocked|]) == id;
    assert forall j :: 0 <= j < |blocked| ==> after[j] == blocked[j];
    assert FirstIndex(after, BlockedId, id) == Some(|blocked|);
  }

  /** An unblocked user is let through from then on. */
  lemma UnblockingTakesEffect(admins: seq<AdminRecord>, blocked: seq<BlockedRecord>, superAdmins: seq<int>,
                              sender: int, text: string)
    requires UnblockUserStep(admins, blocked, superAdmins, sender, text).1 == UnblockedUser
    ensures BlockReason(UnblockUserStep(admins, blocked, superAdmins, sender, text).0,
                        ParseInt(Words(text)[1]).value) == None
  {
  }

  /** The stored reason splits back into exactly the words typed after the user id. */
  lemma BlockReasonWords(admins: seq<AdminRecord>, blocked: seq<BlockedRecord>, superAdmins: seq<int>,
                         sender: int, text: string, directory: map<int, Profile>)
    requires BlockUserStep(admins, blocked, superAdmins, sender, text, directory).1 == BlockedUser
    ensures var after := BlockUserStep(admins, blocked, superAdmins, sender, text, directory).0;
            |after| == |blocked| + 1 && Words(after[|blocked|].reason) == Words(text)[2..]
  {
    var ws := Words(text)[2..];
    assert forall k :: 0 <= k < |ws| ==> IsWord(ws[k]) by {
      forall k | 0 <= k < |ws| ensures IsWord(ws[k]) {
        assert ws[k] == Words(text)[k + 2];
      }
    }
    WordsOfJoin(ws);
  }

  /** Unblocking a user just blocked restores the blocked list. */
  lemma BlockThenUnblock(admins: seq<AdminRecord>, blocked: seq<BlockedRecord>, superAdmins: seq<int>,
                         sender: int, blockText: string, unblockText: string, directory: map<int, Profile>)
    requires BlockUserStep(admins, blocked, superAdmins, sender, blockText, directory).1 == BlockedUser
    requires |Words(unblockText)| >= 2 && Words(unblockText)[1] == Words(blockText)[1]
    ensures UnblockUserStep(admins, BlockUserStep(admins, blocked, superAdmins, sender, blockText, directory).0,
                            superAdmins, sender, unblockText) == (blocked, UnblockedUser)
  {
    var params := Words(blockText);
    var id := ParseInt(params[1]).value;
    var added := BlockedRecordFor(id, directory[id], JoinWords(params[2..]));
    RemoveAfterAppend(blocked, added, BlockedId);
    assert HasId(blocked + [added], BlockedId, id) by {
      assert BlockedId((blocked + [added])[|blocked|]) == id;
    }
  }
}
