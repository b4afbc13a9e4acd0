/** `handleTwitchCommands`: the inline chat commands. The result is
    inverted: `false` means the command was handled, and `true` that the
    line should be relayed as usual. */
module TwitchCommands {
  import opened Wrappers
  import opened Text
  import opened Moderation
  import opened Relay

  const NoteContent: string := "Note added:"
  const NoteColor: string := "#00b0f4"
  const NoteUser: string := "\U{1F4DD}"

  /** `msg.userInfo`: the badges the command reads. */
  datatype UserInfo = UserInfo(isBroadcaster: bool, isMod: bool)

  /** The note sent through the webhook: its text, embed and identity, and
      the mention kinds parsed (none). */
  datatype Note = Note(content: string, description: string, color: string, username: string,
                       avatarURL: string, parsedMentions: seq<string>)

  datatype Effect = NoEffect | SendNote(note: Note) | BulkDelete(messages: seq<ChannelMessage>)

  datatype CommandResult = CommandResult(notHandled: bool, effect: Effect)

  /** `msg?.userInfo.isBroadcaster || msg?.userInfo.isMod`; no message means
      no permission. */
  predicate MayAddNote(msg: Option<UserInfo>) {
    msg.Some? && (msg.value.isBroadcaster || msg.value.isMod)
  }

  function NoteFor(formattedMessage: string, user: ChatUser): Note {
    Note(NoteContent, ReplaceFirst(formattedMessage, "!addnote", "") + " \n", NoteColor, NoteUser,
         user.profilePictureUrl.GetOr(DefaultAvatar), [])
  }

  /** One command. `fetched` is the channel's messages, `None` when the
      fetch rejects. A missing webhook makes `addnote` send nothing, and
      makes `vanish` throw inside its `try` (reading the webhook's
      channel), which the `catch` turns into "not handled". */
  function HandleTwitchCommand(command: string, msg: Option<UserInfo>, webhookPresent: bool, user: ChatUser,
                               userName: string, formattedMessage: string,
                               fetched: Option<seq<ChannelMessage>>): (r: CommandResult)
    ensures command == "addnote" ==> (r.notHandled <==> !MayAddNote(msg))
    ensures command == "vanish" ==> (r.notHandled <==> fetched.None? || !webhookPresent)
    ensures command != "addnote" && command != "vanish" ==> r == CommandResult(true, NoEffect)
    ensures r.notHandled ==> r.effect == NoEffect
    ensures r.effect.SendNote? ==> command == "addnote" && MayAddNote(msg) && webhookPresent
    ensures r.effect.BulkDelete? ==>
              (command == "vanish" && fetched.Some? &&
               forall m :: m in r.effect.messages <==> m in fetched.value && m.authorUsername == userName)
  {
    if command == "addnote" then
      if MayAddNote(msg) then
        CommandResult(false, if webhookPresent then SendNote(NoteFor(formattedMessage, user)) else NoEffect)
      else CommandResult(true, NoEffect)
    else if command == "vanish" then
      match fetched
      case None => CommandResult(true, NoEffect)
      case Some(msgs) =>
        if webhookPresent then CommandResult(false, BulkDelete(Authored(msgs, userName)))
        else CommandResult(true, NoEffect)
    else CommandResult(true, NoEffect)
  }

  /** The note's text is the message with its first `!addnote` removed and
      " \n" appended; a message that starts with the command keeps the rest.
      It goes out under the memo emoji, with no mentions parsed, and the
      avatar falls back to the default. */
  lemma NoteShape(rest: string, user: ChatUser)
    ensures var n := NoteFor("!addnote" + rest, user);
            && n.description == rest + " \n"
            && n.content == "Note added:" && n.username == "\U{1F4DD}" && n.parsedMentions == []
            && (user.profilePictureUrl.None? ==> n.avatarURL == "https://i.imgur.com/nrhRy0b.png")
            && (user.profilePictureUrl.Some? ==> n.avatarURL == user.profilePictureUrl.value)
  {
    var s := "!addnote" + rest;
    assert StartsWith(s, "!addnote") by { assert s[..8] == "!addnote"; }
    assert s[8..] == rest;
  }

  /** Only the first occurrence is removed: the note keeps a second
      `!addnote`. */
  lemma NoteKeepsSecondCommand(user: ChatUser)
    ensures NoteFor("!addnote !addnote", user).description == " !addnote \n"
  {
    var s := "!addnote !addnote";
    assert StartsWith(s, "!addnote") by { assert s[..8] == "!addnote"; }
    assert s[8..] == " !addnote";
  }

  /** A broadcaster or moderator's note is handled and sent; anyone else's
      is not handled and nothing is sent. */
  lemma AddNoteByPermission(info: UserInfo, user: ChatUser, userName: string, text: string,
                            fetched: Option<seq<ChannelMessage>>)
    ensures var r := HandleTwitchCommand("addnote", Some(info), true, user, userName, text, fetched);
            (info.isBroadcaster || info.isMod) <==> r == CommandResult(false, SendNote(NoteFor(text, user)))
    ensures HandleTwitchCommand("addnote", None, true, user, userName, text, fetched) == CommandResult(true, NoEffect)
  {
  }

  /** `vanish` needs no badge: anyone's request is handled once the
      messages are fetched. */
  lemma VanishNeedsNoPermission(msg: Option<UserInfo>, user: ChatUser, userName: string, text: string,
                                msgs: seq<ChannelMessage>)
    ensures !HandleTwitchCommand("vanish", msg, true, user, userName, text, Some(msgs)).notHandled
  {
  }
}
