/**
 * What a command handler sees of the host bot and what it can do to it: the
 * trigger (matched command name and argument), the core settings it reads, the
 * effects it produces in order, and the value it returns to the dispatcher.
 */
module Bot {
  import opened Wrappers
  import ClientSlot

  /** `trigger.group(1)` is the command name, `trigger.group(2)` the argument, if any. */
  datatype Trigger = Trigger(command: string, argument: Option<string>)

  /** Python truthiness of `trigger.group(2)`: neither `None` nor the empty string. */
  predicate HasArgument(t: Trigger)
  {
    t.argument.Some? && t.argument.value != ""
  }

  /** `bot.settings.core.help_prefix` and `bot.settings.core.owner`. */
  datatype CoreSettings = CoreSettings(helpPrefix: string, owner: string)

  /** `bot.reply(text)`, `bot.say(text)`, and a call of `refresh_ddgs_client(bot)`. */
  datatype Effect = Reply(text: string) | Say(text: string) | RefreshClient

  /** `return plugin.NOLIMIT` versus a plain or implicit `return` (`None`). */
  datatype Return = NoLimit | NoValue

  /** The slot after the effects have run, in order: only a refresh touches it. */
  function Apply(h: ClientSlot.Holder, effects: seq<Effect>): (r: ClientSlot.Holder)
    ensures (forall i :: 0 <= i < |effects| ==> !effects[i].RefreshClient?) ==> r == h
    ensures (exists i :: 0 <= i < |effects| && effects[i].RefreshClient?) ==>
              r.slot.Some? && r.slot.value > h.created
    ensures r.created >= h.created
    ensures ClientSlot.Valid(h) ==> ClientSlot.Valid(r)
    decreases |effects|
  {
    if effects == [] then h
    else
      var h' := if effects[0].RefreshClient? then ClientSlot.Refresh(h) else h;
      Apply(h', effects[1..])
  }

  /** The lines a handler sends to the chat (replies and says), in order. */
  function Spoken(effects: seq<Effect>): (r: seq<string>)
    ensures |r| <= |effects|
    ensures (forall i :: 0 <= i < |effects| ==> effects[i].RefreshClient?) <==> r == []
    decreases |effects|
  {
    if effects == [] then []
    else if effects[0].RefreshClient? then Spoken(effects[1..])
    else [effects[0].text] + Spoken(effects[1..])
  }

  /** Some effect sends a line to the channel with `say`. */
  predicate Says(effects: seq<Effect>)
  {
    exists i :: 0 <= i < |effects| && effects[i].Say?
  }

  /** Some effect refreshes the client. */
  predicate Refreshes(effects: seq<Effect>)
  {
    exists i :: 0 <= i < |effects| && effects[i].RefreshClient?
  }
}
