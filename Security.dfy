/**
 * Access checks of the bot: which chats it serves and who its owner is. The owner's
 * user id and the allow-list of chat ids come from the configuration and are
 * parameters here.
 */
module Security {

  const PrivateChatReason: string := "Бот не работает в личных сообщениях"
  const ChatNotAllowedReason: string := "Чат не разрешен для работы бота"

  /** The chat is on the configured allow-list. */
  predicate IsAllowedChat(chatId: int, allowedChatIds: seq<int>) {
    chatId in allowedChatIds
  }

  /** The message comes from a one-to-one chat with the bot. */
  predicate IsPrivateMessage(chatType: string) {
    chatType == "private"
  }

  predicate IsOwner(userId: int, ownerUserId: int) {
    userId == ownerUserId
  }

  /**
   * Whether the bot may work in a chat, and the reason when it may not. Private
   * chats are refused before the allow-list is consulted.
   */
  function CheckChatAccess(chatId: int, chatType: string, allowedChatIds: seq<int>): (r: (bool, string))
    ensures r.0 <==> !IsPrivateMessage(chatType) && IsAllowedChat(chatId, allowedChatIds)
    ensures r.0 <==> r.1 == ""
    ensures chatType == "private" ==> r.1 == PrivateChatReason
    ensures chatType != "private" && chatId !in allowedChatIds ==> r.1 == ChatNotAllowedReason
  {
    if IsPrivateMessage(chatType) then (false, PrivateChatReason)
    else if !IsAllowedChat(chatId, allowedChatIds) then (false, ChatNotAllowedReason)
    else (true, "")
  }

  /** Owner-only commands: granted exactly to the configured owner. */
  function CheckOwnerPermission(userId: int, ownerUserId: int): (granted: bool)
    ensures granted <==> userId == ownerUserId
    ensures granted == IsOwner(userId, ownerUserId)
  {
    if !IsOwner(userId, ownerUserId) then false else true
  }
}
