/** Incoming messages and the bot's answers, reduced to what the handlers decide:
    which reply, which keyboard, which media is copied or forwarded where. */
module Events {
  import opened Common
  import opened Records
  import opened Intake
  import opened Catalog

  /** The kind of content a message carries (telebot's `content_type`). */
  datatype Content =
    | TextContent(text: string)
    | DocumentContent(document: Document)
    | Photo
    | Video
    | Sticker
    | Animation
    | OtherContent

  /** An incoming message; `forwardFrom` is the original sender of a forwarded message
      when Telegram discloses it. */
  datatype Message = Message(messageId: int, chat: int, from: Sender, content: Content, forwardFrom: Option<int>)

  /** What the bot sends back. Copies and forwards name the channel they come from or go to. */
  datatype Reply =
    | BlockedNotice(reason: string)
    | Welcome
    | WelcomeBack
    | LimitReached(secondsLeft: int)
    | ChooseProductType(productTypes: seq<string>)
    | ChooseProductCode(productCodes: seq<string>)
    | InvalidProductType
    | NoFirmwareForType(text: string)
    | InvalidProductCode
    | CopyFirmware(channel: int, messageId: int)
    | CopyFirmwareBatch(channel: int, messageIds: seq<int>)
    | NoFirmwareForCode(productType: string, text: string)
    | CopyEmergency(channel: int, messageId: int)
    | NoEmergencyFiles(text: string)
    | UploadPrompt
    | UploadReceived(forwardedTo: int, verdict: UploadVerdict)
    | BroadcastPrompt
    | BroadcastDone(delivered: seq<int>)
    | GetIdPrompt
    | ForwardedFrom(userId: int)
    | IdUnavailable
    | Cancelled
    | NothingToCancel
    | OnlySuperAdmin
    | NotAdmin
    | Usage
    | InvalidUserId
    | UserNotFound
    | CannotPromoteBlocked
    | Promoted
    | AlreadyAdmin
    | CannotDemoteSuperAdmin
    | Demoted
    | AlreadyNotAdmin
    | CannotBlockAdmin
    | AlreadyBlocked
    | BlockedUser
    | NotBlocked
    | UnblockedUser
    | RequestAnswered(outcome: RequestVerdict)
    | RequestForwarded(channel: int, productType: string, productCode: string)
    | Crashed
    | Unhandled
}
