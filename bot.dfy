/** The bot itself: the per-user conversation state (`user_states`), the stored record
    lists, and one method per command handler and per conversation-step handler. */
module Bot {
  import opened Common
  import opened Text
  import opened Records
  import opened Catalog
  import opened RateLimit
  import opened Intake
  import opened Events
  import opened Access
  import opened Broadcast

  /** The values `user_states` holds. A user without an entry is idle. */
  datatype State =
    | AwaitingProductType
    | AwaitingProductCode
    | AwaitingEmergencyFiles
    | AwaitingUploadFirmware
    | AwaitingForwardMessage
    | AwaitingUserMessage

  /** Channel ids from the environment: the firmware and emergency repositories, the
      upload intake, and where `/request` is forwarded. */
  datatype Channels = Channels(firmware: int, emergency: int, upload: int, request: int)

  /** How the product-code step delivers what it found: one copy, a batch, or the
      "not in the repository" answer for an empty `DownloadID`. */
  function FirmwareDelivery(channel: int, productType: string, text: string, ids: seq<int>): Reply {
    if |ids| == 1 then CopyFirmware(channel, ids[0])
    else if |ids| > 1 then CopyFirmwareBatch(channel, ids)
    else NoFirmwareForCode(productType, text)
  }

  /** The answer to `/request`. */
  function RequestReply(v: RequestVerdict, channel: int): Reply {
    match v
    case Requested(t, c) => RequestForwarded(channel, t, c)
    case RequestRaises => Crashed
    case _ => RequestAnswered(v)
  }

  /** The content types the handler of each state is registered for. */
  predicate Accepts(state: State, content: Content) {
    match state
    case AwaitingUploadFirmware => content.DocumentContent?
    case AwaitingForwardMessage => !content.OtherContent?
    case _ => content.TextContent?
  }

  function StateOf(states: map<int, State>, id: int): Option<State> {
    if id in states then Some(states[id]) else None
  }

  /** The moves a conversation-step handler makes on its sender's state: stay, finish,
      or go from the product-type step to the product-code step. */
  predicate HandlerMove(before: State, after: Option<State>) {
    after == None || after == Some(before)
    || (before == AwaitingProductType && after == Some(AwaitingProductCode))
  }

  // Outcomes of the conversation-step handlers, for a sender `id` whose `user_states`
  // entry goes from `before` to `after`.

  /** `handle_product_type`: a type with firmware offers its codes and moves on to the
      product-code step; otherwise the sender stays where they are. */
  predicate ProductTypeOutcome(catalog: seq<Device>, id: int, text: string,
                               before: map<int, State>, after: map<int, State>, reply: Reply) {
    match ProductTypeStep(catalog, text)
    case OfferCodes(codes) => reply == ChooseProductCode(codes) && after == before[id := AwaitingProductCode]
    case NothingAvailable => reply == NoFirmwareForType(text) && after == before
    case UnknownType => reply == InvalidProductType && after == before
  }

  /** `handle_product_code`: a known code ends the conversation and delivers its firmware;
      a delivery that is not empty counts against a non-admin's daily limit. */
  predicate ProductCodeOutcome(catalog: seq<Device>, firmwareChannel: int, admin: bool, id: int, text: string,
                               before: map<int, State>, after: map<int, State>,
                               usersBefore: seq<UserRecord>, usersAfter: seq<UserRecord>, reply: Reply) {
    match ProductCodeStep(catalog, text)
    case UnknownCode => reply == InvalidProductCode && after == before && usersAfter == usersBefore
    case Deliver(t, ids) =>
      after == before - {id}
      && reply == FirmwareDelivery(firmwareChannel, t, text, ids)
      && usersAfter == (if |ids| > 0 && !admin then IncrementRequests(usersBefore, id) else usersBefore)
  }

  /** `handle_emergency_files`: any known type ends the conversation. */
  predicate EmergencyOutcome(catalog: seq<Device>, emergencyChannel: int, id: int, text: string,
                             before: map<int, State>, after: map<int, State>, reply: Reply) {
    match EmergencyStepFor(catalog, text)
    case UnknownEmergencyType => reply == InvalidProductType && after == before
    case EmergencyFile(m) => reply == CopyEmergency(emergencyChannel, m) && after == before - {id}
    case NoEmergencyFile => reply == NoEmergencyFiles(text) && after == before - {id}
  }

  /** `handle_upload_file`: the document goes to the intake channel whatever its verdict;
      only an accepted package ends the conversation. */
  predicate UploadOutcome(uploadChannel: int, id: int, doc: Document,
                          before: map<int, State>, after: map<int, State>, reply: Reply) {
    reply == UploadReceived(uploadChannel, UploadCheck(doc))
    && after == if UploadCheck(doc) == Accepted then before - {id} else before
  }

  /** `handle_forward_message`: the conversation ends and every target is tried once. */
  predicate ForwardOutcome(id: int, targets: seq<int>, reachable: set<int>,
                           before: map<int, State>, after: map<int, State>, reply: Reply) {
    after == before - {id} && reply == BroadcastDone(Reached(targets, reachable))
  }

  /** `handle_user_id`: the conversation ends whether or not the original sender is disclosed. */
  predicate UserIdOutcome(id: int, forwardFrom: Option<int>,
                          before: map<int, State>, after: map<int, State>, reply: Reply) {
    after == before - {id}
    && reply == if forwardFrom.Some? then ForwardedFrom(forwardFrom.value) else IdUnavailable
  }

  class FirmwareBot {
    const channels: Channels
    const superAdmins: seq<int>
    const catalog: seq<Device>
    var states: map<int, State>
    var users: seq<UserRecord>
    var admins: seq<AdminRecord>
    var blocked: seq<BlockedRecord>

    constructor (channels: Channels, superAdmins: seq<int>, catalog: seq<Device>,
                 users: seq<UserRecord>, admins: seq<AdminRecord>, blocked: seq<BlockedRecord>)
      ensures this.channels == channels && this.superAdmins == superAdmins && this.catalog == catalog
      ensures this.users == users && this.admins == admins && this.blocked == blocked
      ensures states == map[]
    {
      this.channels := channels;
      this.superAdmins := superAdmins;
      this.catalog := catalog;
      this.users := users;
      this.admins := admins;
      this.blocked := blocked;
      states := map[];
    }

    // -------------------------------------------------------------------------
    // Helpers shared by the handlers

    /** `is_user_blocked`: walks the blocked list and stops at the first record of `id`. */
    method BlockedReason(id: int) returns (reason: Option<string>)
      ensures reason == BlockReason(blocked, id)
    {
      var i := FindRecord(blocked, BlockedId, id);
      reason := if i.Some? then Some(blocked[i.value].reason) else None;
    }

    /** `check_user_limit`: writes the user list back only when the download is allowed. */
    method CheckLimit(sender: Sender, now: int) returns (allowed: bool, timeLeft: Option<int>)
      modifies this`users
      ensures var c := CheckUserLimit(old(users), sender, now);
              allowed == c.allowed && timeLeft == c.timeLeft && users == c.users
    {
      var found := FirstIndex(users, UserId, sender.id);
      var i: nat;
      var pending := users;
      timeLeft := None;
      if found.None? {
        i := |users|;
        pending := users + [NewUserRecord(sender, now)];
      } else {
        i := found.value;
        if now > users[i].lastRequested + Day {
          pending := users[i := users[i].(totalRequests := 0)];
        } else {
          timeLeft := Some(users[i].lastRequested + Day - now);
        }
      }
      if pending[i].totalRequests >= DailyLimit {
        return false, timeLeft;
      }
      users := pending[i := pending[i].(lastRequested := now)];
      allowed := true;
    }

    /** `save_user_data`. */
    method SaveUserData(id: int)
      modifies this`users
      ensures users == IncrementRequests(old(users), id)
    {
      var found := FirstIndex(users, UserId, id);
      if found.Some? {
        var i := found.value;
        users := users[i := users[i].(totalRequests := users[i].totalRequests + 1)];
      }
    }

    // -------------------------------------------------------------------------
    // Commands that start a conversation: each overwrites the sender's state

    /** `/start`: greets the sender. A sender without a user record gets a fresh one,
        which is written back only when the sender is not an admin; a known sender is
        welcomed back and nothing is written. */
    method Start(msg: Message, now: int) returns (reply: Reply)
      modifies this`users
      ensures BlockReason(blocked, msg.from.id).Some? ==>
        reply == BlockedNotice(BlockReason(blocked, msg.from.id).value) && users == old(users)
      ensures BlockReason(blocked, msg.from.id).None? && HasId(old(users), UserId, msg.from.id) ==>
        reply == WelcomeBack && users == old(users)
      ensures BlockReason(blocked, msg.from.id).None? && !HasId(old(users), UserId, msg.from.id) ==>
        reply == Welcome
        && users == if IsAdminById(admins, superAdmins, msg.from.id) then old(users)
                    else old(users) + [NewUserRecord(msg.from, now)]
    {
      var reason := BlockedReason(msg.from.id);
      if reason.Some? {
        return BlockedNotice(reason.value);
      }
      var found := FindRecord(users, UserId, msg.from.id);
      if found.Some? {
        return WelcomeBack;
      }
      reply := Welcome;
      if IsAdminById(admins, superAdmins, msg.from.id) {
        return;
      }
      users := users + [NewUserRecord(msg.from, now)];
    }

    /** `/download`: blocked users are turned away; non-admins must pass the daily limit. */
    method Download(msg: Message, now: int) returns (reply: Reply)
      modifies this`states, this`users
      ensures BlockReason(blocked, msg.from.id).Some? ==>
        reply == BlockedNotice(BlockReason(blocked, msg.from.id).value)
        && states == old(states) && users == old(users)
      ensures BlockReason(blocked, msg.from.id).None? && IsAdminById(admins, superAdmins, msg.from.id) ==>
        reply == ChooseProductType(DownloadKeyboard(catalog)) && users == old(users)
        && states == old(states)[msg.from.id := AwaitingProductType]
      ensures BlockReason(blocked, msg.from.id).None? && !IsAdminById(admins, superAdmins, msg.from.id) ==>
        var c := CheckUserLimit(old(users), msg.from, now);
        users == c.users
        && (c.allowed ==> reply == ChooseProductType(DownloadKeyboard(catalog))
                          && states == old(states)[msg.from.id := AwaitingProductType])
        && (!c.allowed ==> reply == LimitReached(c.timeLeft.value) && states == old(states))
    {
      var reason := BlockedReason(msg.from.id);
      if reason.Some? {
        return BlockedNotice(reason.value);
      }
      if !IsAdminById(admins, superAdmins, msg.from.id) {
        var allowed, timeLeft := CheckLimit(msg.from, now);
        if !allowed {
          return LimitReached(timeLeft.value);
        }
      }
      reply := ChooseProductType(DownloadKeyboard(catalog));
      states := states[msg.from.id := AwaitingProductType];
    }

    /** `/upload`. */
    method Upload(msg: Message) returns (reply: Reply)
      modifies this`states
      ensures BlockReason(blocked, msg.from.id).Some? ==>
        reply == BlockedNotice(BlockReason(blocked, msg.from.id).value) && states == old(states)
      ensures BlockReason(blocked, msg.from.id).None? ==>
        reply == UploadPrompt && states == old(states)[msg.from.id := AwaitingUploadFirmware]
    {
      var reason := BlockedReason(msg.from.id);
      if reason.Some? {
        return BlockedNotice(reason.value);
      }
      states := states[msg.from.id := AwaitingUploadFirmware];
      reply := UploadPrompt;
    }

    /** `/emergency_files`. */
    method EmergencyFiles(msg: Message) returns (reply: Reply)
      modifies this`states
      ensures BlockReason(blocked, msg.from.id).Some? ==>
        reply == BlockedNotice(BlockReason(blocked, msg.from.id).value) && states == old(states)
      ensures BlockReason(blocked, msg.from.id).None? ==>
        reply == ChooseProductType(EmergencyKeyboard(catalog))
        && states == old(states)[msg.from.id := AwaitingEmergencyFiles]
    {
      var reason := BlockedReason(msg.from.id);
      if reason.Some? {
        return BlockedNotice(reason.value);
      }
      reply := ChooseProductType(EmergencyKeyboard(catalog));
      states := states[msg.from.id := AwaitingEmergencyFiles];
    }

    /** `/notify_all`: only from a super admin's chat. */
    method NotifyAll(msg: Message) returns (reply: Reply)
      modifies this`states
      ensures msg.chat !in superAdmins ==> reply == OnlySuperAdmin && states == old(states)
      ensures msg.chat in superAdmins ==>
        reply == BroadcastPrompt && states == old(states)[msg.from.id := AwaitingForwardMessage]
    {
      if msg.chat !in superAdmins {
        return OnlySuperAdmin;
      }
      states := states[msg.from.id := AwaitingForwardMessage];
      reply := BroadcastPrompt;
    }

    /** `/get_id`: only for admins. */
    method GetId(msg: Message) returns (reply: Reply)
      modifies this`states
      ensures !IsAdminById(admins, superAdmins, msg.from.id) ==> reply == NotAdmin && states == old(states)
      ensures IsAdminById(admins, superAdmins, msg.from.id) ==>
        reply == GetIdPrompt && states == old(states)[msg.from.id := AwaitingUserMessage]
    {
      if !IsAdminById(admins, superAdmins, msg.from.id) {
        return NotAdmin;
      }
      states := states[msg.from.id := AwaitingUserMessage];
      reply := GetIdPrompt;
    }

    /** `/cancel`: drops the sender's state, if there is one. */
    method Cancel(msg: Message) returns (reply: Reply)
      modifies this`states
      ensures BlockReason(blocked, msg.from.id).Some? ==>
        reply == BlockedNotice(BlockReason(blocked, msg.from.id).value) && states == old(states)
      ensures BlockReason(blocked, msg.from.id).None? && msg.from.id in old(states) ==>
        reply == Cancelled && states == old(states) - {msg.from.id}
      ensures BlockReason(blocked, msg.from.id).None? && msg.from.id !in old(states) ==>
        reply == NothingToCancel && states == old(states)
    {
      var reason := BlockedReason(msg.from.id);
      if reason.Some? {
        return BlockedNotice(reason.value);
      }
      if msg.from.id in states {
        states := states - {msg.from.id};
        reply := Cancelled;
      } else {
        reply := NothingToCancel;
      }
    }

    /** Two `/cancel` in a row: the second never finds anything to cancel. */
    method CancelTwice(msg: Message) returns (first: Reply, second: Reply)
      modifies this`states
      ensures BlockReason(blocked, msg.from.id).None? ==>
        second == NothingToCancel && states == old(states) - {msg.from.id}
        && first == (if msg.from.id in old(states) then Cancelled else NothingToCancel)
      ensures BlockReason(blocked, msg.from.id).Some? ==> states == old(states) && first == second
    {
      first := Cancel(msg);
      second := Cancel(msg);
    }

    // -------------------------------------------------------------------------
    // Commands that answer at once

    /** `/request <type> <code>`. */
    method Request(msg: Message) returns (reply: Reply)
      requires msg.content.TextContent?
      ensures BlockReason(blocked, msg.from.id).Some? ==>
        reply == BlockedNotice(BlockReason(blocked, msg.from.id).value)
      ensures BlockReason(blocked, msg.from.id).None? ==>
        reply == RequestReply(RequestCheck(catalog, Words(msg.content.text)), channels.request)
    {
      var reason := BlockedReason(msg.from.id);
      if reason.Some? {
        return BlockedNotice(reason.value);
      }
      var verdict := RequestCheck(catalog, Words(msg.content.text));
      reply := RequestReply(verdict, channels.request);
    }

    /** `/add_admin <id>`; `directory` holds the accounts `get_chat` can find. */
    method AddAdmin(msg: Message, directory: map<int, Profile>) returns (reply: Reply)
      requires msg.content.TextContent?
      modifies this`admins
      ensures (admins, reply) == AddAdminStep(old(admins), blocked, superAdmins, msg.chat, msg.content.text, directory)
    {
      if msg.chat !in superAdmins {
        return OnlySuperAdmin;
      }
      var params := Words(msg.content.text);
      if |params| < 2 {
        return Usage;
      }
      var check := CheckUserId(params[1], directory);
      if check.BadId? {
        return InvalidUserId;
      } else if check.UnknownId? {
        return UserNotFound;
      }
      var id := check.id;
      if HasId(blocked, BlockedId, id) {
        return CannotPromoteBlocked;
      }
      if id !in superAdmins {
        admins := admins + [AdminRecordFor(id, directory[id])];
        reply := Promoted;
      } else {
        reply := AlreadyAdmin;
      }
    }

    /** `/remove_admin <id>`. */
    method RemoveAdmin(msg: Message) returns (reply: Reply)
      requires msg.content.TextContent?
      modifies this`admins
      ensures (admins, reply) == RemoveAdminStep(old(admins), superAdmins, msg.chat, msg.content.text)
    {
      if msg.chat !in superAdmins {
        return OnlySuperAdmin;
      }
      var params := Words(msg.content.text);
      if |params| < 2 {
        return Usage;
      }
      var parsed := ParseInt(params[1]);
      if parsed.None? {
        return InvalidUserId;
      }
      var id := parsed.value;
      if id in superAdmins {
        reply := CannotDemoteSuperAdmin;
      } else if HasId(admins, AdminId, id) {
        admins := RemoveId(admins, AdminId, id);
        reply := Demoted;
      } else {
        reply := AlreadyNotAdmin;
      }
    }

    /** `/block_user <id> <reason>`. */
    method BlockUser(msg: Message, directory: map<int, Profile>) returns (reply: Reply)
      requires msg.content.TextContent?
      modifies this`blocked
      ensures (blocked, reply) == BlockUserStep(admins, old(blocked), superAdmins, msg.from.id, msg.content.text, directory)
    {
      if !IsAdminById(admins, superAdmins, msg.from.id) {
        return NotAdmin;
      }
      var params := Words(msg.content.text);
      if |params| < 3 {
        return Usage;
      }
      var check := CheckUserId(params[1], directory);
      if check.BadId? {
        return InvalidUserId;
      } else if check.UnknownId? {
        return UserNotFound;
      }
      var id := check.id;
      if IsAdminById(admins, superAdmins, id) {
        return CannotBlockAdmin;
      }
      var existing := FindRecord(blocked, BlockedId, id);
      if existing.Some? {
        return AlreadyBlocked;
      }
      blocked := blocked + [BlockedRecordFor(id, directory[id], JoinWords(params[2..]))];
      reply := BlockedUser;
    }

    /** `/unblock_user <id>`. */
    method UnblockUser(msg: Message) returns (reply: Reply)
      requires msg.content.TextContent?
      modifies this`blocked
      ensures (blocked, reply) == UnblockUserStep(admins, old(blocked), superAdmins, msg.from.id, msg.content.text)
    {
      if !IsAdminById(admins, superAdmins, msg.from.id) {
        return NotAdmin;
      }
      var params := Words(msg.content.text);
      if |params| < 2 {
        return Usage;
      }
      var parsed := ParseInt(params[1]);
      if parsed.None? {
        return InvalidUserId;
      }
      var id := parsed.value;
      if !HasId(blocked, BlockedId, id) {
        return NotBlocked;
      }
      blocked := RemoveId(blocked, BlockedId, id);
      reply := UnblockedUser;
    }

    // -------------------------------------------------------------------------
    // Conversation steps: each runs only for a sender in its state

    /** `handle_product_type`. A known type without available firmware keeps the state. */
    method HandleProductType(msg: Message) returns (reply: Reply)
      requires msg.content.TextContent?
      requires StateOf(states, msg.from.id) == Some(AwaitingProductType)
      modifies this`states
      ensures ProductTypeOutcome(catalog, msg.from.id, msg.content.text, old(states), states, reply)
    {
      var step := ProductTypeStep(catalog, msg.content.text);
      match step
      case OfferCodes(codes) =>
        reply := ChooseProductCode(codes);
        states := states[msg.from.id := AwaitingProductCode];
      case NothingAvailable =>
        reply := NoFirmwareForType(msg.content.text);
      case UnknownType =>
        reply := InvalidProductType;
    }

    /** `handle_product_code`. The state is cleared before delivery; a completed delivery
        to a non-admin counts against the daily limit, an empty `DownloadID` does not. */
    method HandleProductCode(msg: Message) returns (reply: Reply)
      requires msg.content.TextContent?
      requires StateOf(states, msg.from.id) == Some(AwaitingProductCode)
      modifies this`states, this`users
      ensures ProductCodeOutcome(catalog, channels.firmware, IsAdminById(admins, superAdmins, msg.from.id),
                                 msg.from.id, msg.content.text, old(states), states, old(users), users, reply)
    {
      var step := ProductCodeStep(catalog, msg.content.text);
      if step.UnknownCode? {
        return InvalidProductCode;
      }
      states := states - {msg.from.id};
      var ids := step.downloadIds;
      reply := FirmwareDelivery(channels.firmware, step.productType, msg.content.text, ids);
      if |ids| == 0 {
        return;
      }
      if !IsAdminById(admins, superAdmins, msg.from.id) {
        SaveUserData(msg.from.id);
      }
    }

    /** `handle_emergency_files`. Any known type ends the conversation. */
    method HandleEmergencyFiles(msg: Message) returns (reply: Reply)
      requires msg.content.TextContent?
      requires StateOf(states, msg.from.id) == Some(AwaitingEmergencyFiles)
      modifies this`states
      ensures EmergencyOutcome(catalog, channels.emergency, msg.from.id, msg.content.text, old(states), states, reply)
    {
      var step := EmergencyStepFor(catalog, msg.content.text);
      if step.UnknownEmergencyType? {
        return InvalidProductType;
      }
      states := states - {msg.from.id};
      if step.EmergencyFile? {
        reply := CopyEmergency(channels.emergency, step.messageId);
      } else {
        reply := NoEmergencyFiles(msg.content.text);
      }
    }

    /** `handle_upload_file`: the document is forwarded to the intake channel in every
        case; only an accepted package ends the conversation. */
    method HandleUploadFile(msg: Message) returns (reply: Reply)
      requires msg.content.DocumentContent?
      requires StateOf(states, msg.from.id) == Some(AwaitingUploadFirmware)
      modifies this`states
      ensures UploadOutcome(channels.upload, msg.from.id, msg.content.document, old(states), states, reply)
    {
      var verdict := UploadCheck(msg.content.document);
      if verdict == Accepted {
        states := states - {msg.from.id};
      }
      reply := UploadReceived(channels.upload, verdict);
    }

    /** `handle_forward_message`: the state is cleared first, then every user and admin
        record is tried once; `reachable` holds the chats a copy gets through to. */
    method HandleForwardMessage(msg: Message, reachable: set<int>) returns (reply: Reply)
      requires !msg.content.OtherContent?
      requires StateOf(states, msg.from.id) == Some(AwaitingForwardMessage)
      modifies this`states
      ensures ForwardOutcome(msg.from.id, Targets(users, admins), reachable, old(states), states, reply)
    {
      states := states - {msg.from.id};
      var delivered := Notify(Targets(users, admins), reachable);
      reply := BroadcastDone(delivered);
    }

    /** `handle_user_id`: the state is cleared whether or not the sender is disclosed. */
    method HandleUserId(msg: Message) returns (reply: Reply)
      requires msg.content.TextContent?
      requires StateOf(states, msg.from.id) == Some(AwaitingUserMessage)
      modifies this`states
      ensures UserIdOutcome(msg.from.id, msg.forwardFrom, old(states), states, reply)
    {
      states := states - {msg.from.id};
      if msg.forwardFrom.Some? {
        reply := ForwardedFrom(msg.forwardFrom.value);
      } else {
        reply := IdUnavailable;
      }
    }

    /** Routes a text message to the handler of one of the four text-driven steps. */
    method StepOnText(msg: Message) returns (reply: Reply)
      requires msg.content.TextContent?
      requires msg.from.id in states
      requires states[msg.from.id] in {AwaitingProductType, AwaitingProductCode, AwaitingEmergencyFiles, AwaitingUserMessage}
      modifies this`states, this`users
      ensures old(states)[msg.from.id] == AwaitingProductType ==>
        ProductTypeOutcome(catalog, msg.from.id, msg.content.text, old(states), states, reply) && users == old(users)
      ensures old(states)[msg.from.id] == AwaitingProductCode ==>
        ProductCodeOutcome(catalog, channels.firmware, IsAdminById(admins, superAdmins, msg.from.id),
                           msg.from.id, msg.content.text, old(states), states, old(users), users, reply)
      ensures old(states)[msg.from.id] == AwaitingEmergencyFiles ==>
        EmergencyOutcome(catalog, channels.emergency, msg.from.id, msg.content.text, old(states), states, reply)
        && users == old(users)
      ensures old(states)[msg.from.id] == AwaitingUserMessage ==>
        UserIdOutcome(msg.from.id, msg.forwardFrom, old(states), states, reply) && users == old(users)
      ensures states - {msg.from.id} == old(states) - {msg.from.id}
      ensures HandlerMove(old(states)[msg.from.id], StateOf(states, msg.from.id)) && reply != Unhandled
    {
      var id := msg.from.id;
      match states[id]
      case AwaitingProductType =>
        reply := HandleProductType(msg);
      case AwaitingProductCode =>
        reply := HandleProductCode(msg);
      case AwaitingEmergencyFiles =>
        reply := HandleEmergencyFiles(msg);
      case AwaitingUserMessage =>
        reply := HandleUserId(msg);
    }

    /** Routes a document to the upload step, or any content but `OtherContent` to the
        broadcast step. */
    method StepOnMedia(msg: Message, reachable: set<int>) returns (reply: Reply)
      requires msg.from.id in states
      requires states[msg.from.id] == AwaitingUploadFirmware || states[msg.from.id] == AwaitingForwardMessage
      requires Accepts(states[msg.from.id], msg.content)
      modifies this`states
      ensures old(states)[msg.from.id] == AwaitingUploadFirmware ==>
        UploadOutcome(channels.upload, msg.from.id, msg.content.document, old(states), states, reply)
      ensures old(states)[msg.from.id] == AwaitingForwardMessage ==>
        ForwardOutcome(msg.from.id, Targets(users, admins), reachable, old(states), states, reply)
      ensures states - {msg.from.id} == old(states) - {msg.from.id}
      ensures HandlerMove(old(states)[msg.from.id], StateOf(states, msg.from.id)) && reply != Unhandled
    {
      if states[msg.from.id] == AwaitingUploadFirmware {
        reply := HandleUploadFile(msg);
      } else {
        reply := HandleForwardMessage(msg, reachable);
      }
    }

    /** Routes a message that is not a command to the handler of its sender's state:
        the sender's state picks the handler, and a message of a content type that
        handler is not registered for is left unhandled. */
    method Dispatch(msg: Message, reachable: set<int>) returns (reply: Reply)
      modifies this`states, this`users
      ensures msg.from.id !in old(states) || !Accepts(old(states)[msg.from.id], msg.content) ==>
        reply == Unhandled && states == old(states) && users == old(users)
      ensures StateOf(old(states), msg.from.id) == Some(AwaitingProductType) && msg.content.TextContent? ==>
        ProductTypeOutcome(catalog, msg.from.id, msg.content.text, old(states), states, reply) && users == old(users)
      ensures StateOf(old(states), msg.from.id) == Some(AwaitingProductCode) && msg.content.TextContent? ==>
        ProductCodeOutcome(catalog, channels.firmware, IsAdminById(admins, superAdmins, msg.from.id),
                           msg.from.id, msg.content.text, old(states), states, old(users), users, reply)
      ensures StateOf(old(states), msg.from.id) == Some(AwaitingEmergencyFiles) && msg.content.TextContent? ==>
        EmergencyOutcome(catalog, channels.emergency, msg.from.id, msg.content.text, old(states), states, reply)
        && users == old(users)
      ensures StateOf(old(states), msg.from.id) == Some(AwaitingUploadFirmware) && msg.content.DocumentContent? ==>
        UploadOutcome(channels.upload, msg.from.id, msg.content.document, old(states), states, reply)
        && users == old(users)
      ensures StateOf(old(states), msg.from.id) == Some(AwaitingForwardMessage) && !msg.content.OtherContent? ==>
        ForwardOutcome(msg.from.id, Targets(users, admins), reachable, old(states), states, reply)
        && users == old(users)
      ensures StateOf(old(states), msg.from.id) == Some(AwaitingUserMessage) && msg.content.TextContent? ==>
        UserIdOutcome(msg.from.id, msg.forwardFrom, old(states), states, reply) && users == old(users)
      ensures msg.from.id in old(states) && Accepts(old(states)[msg.from.id], msg.content) ==> reply != Unhandled
      ensures states - {msg.from.id} == old(states) - {msg.from.id}
      ensures msg.from.id in old(states) ==> HandlerMove(old(states)[msg.from.id], StateOf(states, msg.from.id))
      ensures msg.from.id !in old(states) ==> msg.from.id !in states
    {
      var id := msg.from.id;
      if id !in states || !Accepts(states[id], msg.content) {
        return Unhandled;
      }
      if states[id] == AwaitingUploadFirmware || states[id] == AwaitingForwardMessage {
        reply := StepOnMedia(msg, reachable);
      } else {
        reply := StepOnText(msg);
      }
    }
  }
}
