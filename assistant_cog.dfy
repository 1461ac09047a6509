/** The assistant cog (naturalassistant/core.py): how `on_message` turns a chat
    message into at most one reply and at most one server action, and the
    `setmonitorinterval` command. The Pterodactyl call and the GPT formatting are
    foreign calls; their combined outcome enters as an input. */
module AssistantCog {
  import opened Common
  import opened AssistantConfig
  import opened IntentHandler
  import opened PermissionChecker

  const DenialReply: string := "Sorry, you don't have permission to do that."
  const ErrorReply: string := "An error occurred while processing your request."

  /** What `on_message` reads of a message. */
  datatype Message = Message(authorIsBot: bool, inGuild: bool, content: string, author: Member)

  /** The server action and its formatting: the formatted text, or an exception. */
  datatype ServiceOutcome = Formatted(text: string) | Raised

  /** `ptero_api.handle_action(action, server_id)`. */
  datatype Invocation = Invocation(action: string, serverId: string)

  /** What the handler does: the text it sends to the channel, if any, and the action
      it starts, if any. */
  datatype Reaction = Reaction(reply: Option<string>, invoked: Option<Invocation>)

  /** `intent.get("roles", [])`. */
  function RolesOf(i: Intent): (r: seq<RoleId>)
    ensures i.roles.None? ==> r == []
    ensures i.roles.Some? ==> r == i.roles.value
  {
    match i.roles
    case None => []
    case Some(roles) => roles
  }

  /** `on_message`, given the stored intents (or that reading them raises) and the
      outcome of the server action should one be started. */
  function OnMessage(msg: Message, intents: IntentTable, lookupRaises: bool, outcome: ServiceOutcome): (r: Reaction)
    ensures msg.authorIsBot || !msg.inGuild ==> r == Reaction(None, None)
    ensures r.reply.None? ==> r.invoked.None?
    ensures r.invoked.Some? ==> r.reply == Some(if outcome.Formatted? then outcome.text else ErrorReply)
  {
    if msg.authorIsBot || !msg.inGuild then Reaction(None, None)
    else if lookupRaises then Reaction(Some(ErrorReply), None)
    else
      match MatchIntent(msg.content, intents)
      case None => Reaction(None, None)
      case Some(intent) =>
        if !CheckUserPermission(msg.author, RolesOf(intent)) then Reaction(Some(DenialReply), None)
        else
          var call := Some(Invocation(intent.action, intent.serverId));
          match outcome
          case Formatted(text) => Reaction(Some(text), call)
          case Raised => Reaction(Some(ErrorReply), call)
  }

  /** An action is started only for the first stored phrase the message contains, and
      only when the author passes that intent's role check; and a permitted first match
      in a guild message from a person does start that intent's action. */
  lemma InvokesOnlyPermittedMatch(msg: Message, intents: IntentTable, lookupRaises: bool, outcome: ServiceOutcome)
    ensures var r := OnMessage(msg, intents, lookupRaises, outcome);
      r.invoked.Some? ==> exists i :: (0 <= i < |intents| &&
        PhraseMatches(intents[i].phrase, msg.content) &&
        (forall j :: 0 <= j < i ==> !PhraseMatches(intents[j].phrase, msg.content)) &&
        CheckUserPermission(msg.author, RolesOf(intents[i].intent)) &&
        r.invoked.value == Invocation(intents[i].intent.action, intents[i].intent.serverId))
    ensures var m := MatchIntent(msg.content, intents);
      !msg.authorIsBot && msg.inGuild && !lookupRaises && m.Some? && CheckUserPermission(msg.author, RolesOf(m.value)) ==>
        OnMessage(msg, intents, lookupRaises, outcome).invoked == Some(Invocation(m.value.action, m.value.serverId))
  {
    var r := OnMessage(msg, intents, lookupRaises, outcome);
    if r.invoked.Some? {
      var m := MatchIntent(msg.content, intents);
      var i :| 0 <= i < |intents| && intents[i].intent == m.value && PhraseMatches(intents[i].phrase, msg.content) &&
        forall j :: 0 <= j < i ==> !PhraseMatches(intents[j].phrase, msg.content);
      assert r.invoked.value == Invocation(intents[i].intent.action, intents[i].intent.serverId);
    }
  }

  /** A message that contains no stored phrase gets no reply at all. */
  lemma NoMatchIsSilent(msg: Message, intents: IntentTable, outcome: ServiceOutcome)
    requires forall i :: 0 <= i < |intents| ==> !PhraseMatches(intents[i].phrase, msg.content)
    ensures OnMessage(msg, intents, false, outcome) == Reaction(None, None)
  {
  }

  /** A matched intent the author may not use gets the denial and starts nothing. */
  lemma DeniedStartsNothing(msg: Message, intents: IntentTable, outcome: ServiceOutcome)
    requires !msg.authorIsBot && msg.inGuild
    requires MatchIntent(msg.content, intents).Some?
    requires !CheckUserPermission(msg.author, RolesOf(MatchIntent(msg.content, intents).value))
    ensures OnMessage(msg, intents, false, outcome) == Reaction(Some(DenialReply), None)
  {
  }

  /** An intent stored without a "roles" key is open to administrators only. */
  lemma MissingRolesOnlyAdmins(msg: Message, intents: IntentTable, outcome: ServiceOutcome)
    requires !msg.authorIsBot && msg.inGuild
    requires MatchIntent(msg.content, intents).Some? && MatchIntent(msg.content, intents).value.roles.None?
    ensures OnMessage(msg, intents, false, outcome).invoked.Some? <==> msg.author.isAdministrator
  {
    EmptyAllowedOnlyAdmins(msg.author);
  }

  /** Any exception on the way gives the one generic error reply. */
  lemma ErrorsGiveGenericReply(msg: Message, intents: IntentTable, lookupRaises: bool)
    requires !msg.authorIsBot && msg.inGuild
    ensures var r := OnMessage(msg, intents, lookupRaises, Raised);
      lookupRaises || r.invoked.Some? ==> r.reply == Some(ErrorReply)
  {
  }

  const IntervalTooSmallReply: string := "Interval must be at least 1 minute."

  function IntervalSetReply(minutes: nat): string
  {
    "Resource monitoring interval set to " + NatToString(minutes) + " minutes."
  }

  /** The cog's own state: the resource monitor's interval, in minutes. */
  class NaturalAssistant {
    var resourceMonitorInterval: int

    ghost predicate Valid()
      reads this
    {
      resourceMonitorInterval >= 1
    }

    constructor()
      ensures Valid() && resourceMonitorInterval == 5
    {
      resourceMonitorInterval := 5;
    }

    /** `setmonitorinterval`: below one minute is refused and changes nothing. */
    method SetMonitorInterval(minutes: int) returns (reply: string)
      requires Valid()
      modifies this
      ensures Valid()
      ensures minutes < 1 ==> resourceMonitorInterval == old(resourceMonitorInterval) && reply == IntervalTooSmallReply
      ensures minutes >= 1 ==> resourceMonitorInterval == minutes && reply == IntervalSetReply(minutes)
    {
      if minutes < 1 {
        reply := IntervalTooSmallReply;
        return;
      }
      resourceMonitorInterval := minutes;
      reply := IntervalSetReply(minutes);
    }
  }
}
