/**
 * The two event handlers of the bot: the statistics command (cooldown check,
 * cache lookup, first card and menu) and the mode selection on a card
 * already shown (cache lookup, card and menu for the chosen mode).
 */
module Bot {

  import opened Wrappers
  import opened Registry
  import opened Stats
  import opened Strings
  import opened Presenter
  import opened Cooldown
  import opened Cache

  const COMMAND_NAME := "void"

  /** The reply to a command event. */
  datatype CommandReply =
    | Ignored                            // not this bot's command
    | Notice(embed: Embed)               // the cooldown notice
    | Message(text: string)              // the deferred reply edited to a plain message
    | Card(embed: Embed, menu: Menu)     // the statistics card with its menu

  /** The reply to a menu selection. */
  datatype SelectReply =
    | Unhandled                          // not this bot's menu
    | Ephemeral(text: string)            // a notice only the selecting user sees
    | Update(embed: Embed, menu: Menu)   // the message redrawn for the chosen mode

  /** A command's reply and the two tables it leaves behind. */
  datatype CommandOutcome = CommandOutcome(reply: CommandReply, last: map<string, int>, entries: map<string, CacheEntry>)

  /** The reply once the cache lookup for `username` has produced `r`: the overall card, or a message. */
  function CommandReplyFor(username: string, r: Lookup): (reply: CommandReply)
    ensures reply.Card? <==> r.Cached? || r.Fetched?
    ensures reply.Card? ==> reply.embed.title == Title(username) && reply.menu == BuildMenu(OVERALL)
    ensures reply.Card? && OVERALL in r.stats ==> ShowsCounters(reply.embed.fields, r.stats[OVERALL])
    ensures reply.Card? && OVERALL !in r.stats ==> ShowsCounters(reply.embed.fields, ZERO)
    ensures r.NotFound? ==> reply == Message("Player not found.")
    ensures r.Error? ==> reply == Message("Error occurred")
  {
    match r
    case Cached(s) => Card(BuildEmbed(username, OVERALL, s), BuildMenu(OVERALL))
    case Fetched(s) => Card(BuildEmbed(username, OVERALL, s), BuildMenu(OVERALL))
    case NotFound => Message("Player not found.")
    case Error => Message("Error occurred")
  }

  /** The reply to selecting `mode` once the cache lookup for `username` has produced `r`. */
  function SelectReplyFor(username: string, mode: string, r: Lookup): (reply: SelectReply)
    ensures reply.Update? <==> r.Cached? || r.Fetched?
    ensures reply.Update? ==> reply.embed.title == Title(username) && reply.menu == BuildMenu(mode)
    ensures reply.Update? && mode in r.stats ==> ShowsCounters(reply.embed.fields, r.stats[mode])
    ensures reply.Update? && mode !in r.stats ==> ShowsCounters(reply.embed.fields, ZERO)
    ensures r.NotFound? ==> reply == Ephemeral("Refetch failed")
    ensures r.Error? ==> reply == Ephemeral("Error")
  {
    match r
    case Cached(s) => Update(BuildEmbed(username, mode, s), BuildMenu(mode))
    case Fetched(s) => Update(BuildEmbed(username, mode, s), BuildMenu(mode))
    case NotFound => Ephemeral("Refetch failed")
    case Error => Ephemeral("Error")
  }

  /**
   * The statistics command: a rate-limited user gets the notice and nothing
   * else happens; otherwise the invocation is recorded, the cache is
   * consulted and the overall card is shown.
   */
  function Command(last: map<string, int>, entries: map<string, CacheEntry>, premium: seq<string>,
                   commandName: string, username: string, userId: string, now: int, up: Upstream): (o: CommandOutcome)
    ensures commandName != COMMAND_NAME ==> o == CommandOutcome(Ignored, last, entries)
    ensures o.reply.Notice? ==> o.last == last && o.entries == entries
    ensures o.reply.Notice? <==> commandName == COMMAND_NAME && Decide(last, premium, userId, now).Wait?
    ensures o.reply.Notice? ==> o.reply.embed == CooldownNotice(Decide(last, premium, userId, now).remaining, commandName)
    ensures userId in premium ==> !o.reply.Notice? && o.last == last
    ensures o.reply.Message? ==> o.entries == entries
    ensures commandName == COMMAND_NAME && Decide(last, premium, userId, now).Proceed? ==>
      var s := LookupStep(entries, username, now, up);
      && o.last == Record(last, premium, userId, now)
      && o.entries == s.entries
      && ((s.result.Cached? || s.result.Fetched?) ==>
            o.reply == Card(BuildEmbed(username, OVERALL, s.result.stats), BuildMenu(OVERALL)))
      && (s.result.NotFound? ==> o.reply == Message("Player not found."))
      && (s.result.Error? ==> o.reply == Message("Error occurred"))
  {
    if commandName != COMMAND_NAME then
      CommandOutcome(Ignored, last, entries)
    else
      match Decide(last, premium, userId, now)
      case Wait(remaining) =>
        CommandOutcome(Notice(CooldownNotice(remaining, commandName)), last, entries)
      case Proceed =>
        var s := LookupStep(entries, username, now, up);
        CommandOutcome(CommandReplyFor(username, s.result), Record(last, premium, userId, now), s.entries)
  }

  /** A menu selection on a card titled `title`: the username is the title without its backticks. */
  function Select(entries: map<string, CacheEntry>, customId: string, mode: string, title: string,
                  now: int, up: Upstream): (s: (SelectReply, map<string, CacheEntry>))
    ensures customId != MENU_ID ==> s == (Unhandled, entries)
    ensures s.0.Ephemeral? ==> s.1 == entries
    ensures customId == MENU_ID ==>
      var username := StripBackticks(title);
      var step := LookupStep(entries, username, now, up);
      && s.1 == step.entries
      && ((step.result.Cached? || step.result.Fetched?) ==>
            s.0 == Update(BuildEmbed(username, mode, step.result.stats), BuildMenu(mode)))
      && (step.result.NotFound? ==> s.0 == Ephemeral("Refetch failed"))
      && (step.result.Error? ==> s.0 == Ephemeral("Error"))
  {
    if customId != MENU_ID then
      (Unhandled, entries)
    else
      var username := StripBackticks(title);
      var step := LookupStep(entries, username, now, up);
      (SelectReplyFor(username, mode, step.result), step.entries)
  }

  /**
   * A selection on a card the command has just shown, made within the cache
   * window, redraws that player's card from the same cache entry, without
   * asking upstream again.
   */
  lemma SelectAfterCommand(last: map<string, int>, entries: map<string, CacheEntry>, premium: seq<string>,
                           username: string, userId: string, t1: int, t2: int, up1: Upstream, up2: Upstream,
                           mode: string)
    requires '`' !in username
    requires Command(last, entries, premium, COMMAND_NAME, username, userId, t1, up1).reply.Card?
    requires LookupStep(entries, username, t1, up1).result.Fetched?
    requires t2 - t1 <= CACHE_TIME
    ensures var o := Command(last, entries, premium, COMMAND_NAME, username, userId, t1, up1);
      var stats := LookupStep(entries, username, t1, up1).result.stats;
      Select(o.entries, MENU_ID, mode, o.reply.embed.title, t2, up2)
        == (Update(BuildEmbed(username, mode, stats), BuildMenu(mode)), o.entries)
  {
    var o := Command(last, entries, premium, COMMAND_NAME, username, userId, t1, up1);
    TitleRoundTrip(username);
    assert StripBackticks(o.reply.embed.title) == username;
    RepeatWithinWindow(entries, username, t1, t2, up1, up2);
  }

  /**
   * The card of a registered mode shows that mode's aggregated counters and
   * never falls back to zeros; for a merge mode these are the doubles and
   * fours counters summed, and without deaths the KDR shown is their summed
   * kill count.
   */
  lemma CardOfAggregate(bw: Blob, username: string, mode: string)
    requires mode in ModeKeys()
    ensures ShowsCounters(BuildEmbed(username, mode, Aggregate(bw)).fields, ModeStats(bw, mode))
    ensures mode in MERGE_MODES ==>
      var c := Merge(GetModeStats(bw, DOUBLES_PREFIX + mode), GetModeStats(bw, FOURS_PREFIX + mode));
      && ShowsCounters(BuildEmbed(username, mode, Aggregate(bw)).fields, c)
      && (c.deaths == 0 ==> BuildEmbed(username, mode, Aggregate(bw)).fields[2].value == Text(NatToString(c.kills)))
  {
  }

  /**
   * Whenever the command goes ahead and the cache has no fresh entry, a
   * missing player record yields exactly the not-found message, records the
   * invocation, and leaves the cache as it was.
   */
  lemma PlayerNotFoundReply(last: map<string, int>, entries: map<string, CacheEntry>, premium: seq<string>,
                            username: string, userId: string, now: int)
    requires Decide(last, premium, userId, now).Proceed?
    requires !Fresh(entries, username, now)
    ensures var o := Command(last, entries, premium, COMMAND_NAME, username, userId, now, Answered(None));
      && o.reply == Message("Player not found.")
      && o.entries == entries
      && o.last == Record(last, premium, userId, now)
  {
  }

  /** The bot's state: the premium list and the two in-memory tables. */
  class Bot {
    const premium: seq<string>
    const cooldowns: CooldownTable
    const cache: ResponseCache

    constructor (premium: seq<string>)
      ensures this.premium == premium
      ensures fresh(cooldowns) && fresh(cache)
      ensures cooldowns.last == map[] && cache.entries == map[]
    {
      this.premium := premium;
      cooldowns := new CooldownTable();
      cache := new ResponseCache();
    }

    /** Handles a command event for `username` from `userId` at time `now`. */
    method HandleCommand(commandName: string, username: string, userId: string, now: int, up: Upstream)
      returns (reply: CommandReply)
      modifies cooldowns, cache
      ensures CommandOutcome(reply, cooldowns.last, cache.entries)
        == Command(old(cooldowns.last), old(cache.entries), premium, commandName, username, userId, now, up)
    {
      if commandName != COMMAND_NAME {
        return Ignored;
      }
      var d := cooldowns.Check(userId, now, premium);
      if d.Wait? {
        return Notice(CooldownNotice(d.remaining, commandName));
      }
      var r := cache.GetOrFetch(username, now, up);
      reply := CommandReplyFor(username, r);
    }

    /** Handles the selection of `mode` in the menu of a card titled `title`. */
    method HandleSelect(customId: string, mode: string, title: string, now: int, up: Upstream)
      returns (reply: SelectReply)
      modifies cache
      ensures (reply, cache.entries) == Select(old(cache.entries), customId, mode, title, now, up)
    {
      if customId != MENU_ID {
        return Unhandled;
      }
      var username := StripBackticks(title);
      var r := cache.GetOrFetch(username, now, up);
      reply := SelectReplyFor(username, mode, r);
    }
  }
}
