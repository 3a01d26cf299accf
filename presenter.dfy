/**
 * What the bot shows: the statistics card for one mode, the cooldown notice,
 * and the mode-selection menu. Cards and menus are plain records here.
 */
module Presenter {

  import opened Wrappers
  import opened Registry
  import opened Stats
  import opened Strings

  const FOOTER := "void | made by mtnk"
  const CARD_COLOR: nat := 0x000000
  const NOTICE_COLOR: nat := 0xff0000
  const MENU_ID := "mode_select"

  /**
   * The text of a card field. `TwoDecimals(n, d)` stands for the quotient
   * n / d rendered with exactly two decimals; that rendering is not modelled.
   */
  datatype FieldValue = Text(text: string) | TwoDecimals(num: nat, den: nat)

  datatype EmbedField = EmbedField(name: string, value: FieldValue, inline: bool)

  datatype Embed = Embed(color: nat, title: string, description: string, fields: seq<EmbedField>, footer: string)

  datatype MenuOption = MenuOption(labelText: string, value: string, isDefault: bool)

  datatype Menu = Menu(customId: string, placeholder: string, options: seq<MenuOption>)

  /** The card title: the username between double backticks. */
  function Title(username: string): string {
    "``" + username + "``"
  }

  /** A ratio as the card shows it: the numerator itself when the denominator is zero. */
  function Ratio(num: nat, den: nat): FieldValue {
    if den == 0 then Text(NatToString(num)) else TwoDecimals(num, den)
  }

  /** The card subtitle: the mode's label, or the word `undefined` for an unregistered key. */
  function Description(modeKey: string): string {
    (match Label(modeKey)
     case Some(l) => l
     case None => "undefined") + " mode"
  }

  /**
   * The six fields show the counters `c`, in the fixed order kills, deaths,
   * KDR, final kills, final deaths, FKDR; a ratio over zero deaths shows
   * exactly the kill count.
   */
  ghost predicate ShowsCounters(fields: seq<EmbedField>, c: Counters) {
    && |fields| == 6
    && fields[0] == EmbedField("Void Kills", Text(NatToString(c.kills)), true)
    && fields[1] == EmbedField("Void Deaths", Text(NatToString(c.deaths)), true)
    && fields[2].name == "Void KDR" && fields[2].inline
    && fields[3] == EmbedField("Void Final Kills", Text(NatToString(c.finalKills)), true)
    && fields[4] == EmbedField("Void Final Deaths", Text(NatToString(c.finalDeaths)), true)
    && fields[5].name == "Void FKDR" && fields[5].inline
    && (c.deaths == 0 ==> fields[2].value == fields[0].value)
    && (c.deaths != 0 ==> fields[2].value == TwoDecimals(c.kills, c.deaths))
    && (c.finalDeaths == 0 ==> fields[5].value == fields[3].value)
    && (c.finalDeaths != 0 ==> fields[5].value == TwoDecimals(c.finalKills, c.finalDeaths))
  }

  /** The six fields of a card for counters `c`. */
  function CardFields(c: Counters): (fields: seq<EmbedField>)
    ensures ShowsCounters(fields, c)
  {
    var k, d := c.kills, c.deaths;
    var fk, fd := c.finalKills, c.finalDeaths;
    [
      EmbedField("Void Kills", Text(NatToString(k)), true),
      EmbedField("Void Deaths", Text(NatToString(d)), true),
      EmbedField("Void KDR", Ratio(k, d), true),
      EmbedField("Void Final Kills", Text(NatToString(fk)), true),
      EmbedField("Void Final Deaths", Text(NatToString(fd)), true),
      EmbedField("Void FKDR", Ratio(fk, fd), true)
    ]
  }

  /** The statistics card of `username` for mode `modeKey`; a mode missing from `stats` shows zeros. */
  function BuildEmbed(username: string, modeKey: string, stats: PlayerStats): (e: Embed)
    ensures e.title == Title(username)
    ensures e.description == Description(modeKey)
    ensures e.color == CARD_COLOR && e.footer == FOOTER
    ensures modeKey in stats ==> ShowsCounters(e.fields, stats[modeKey])
    ensures modeKey !in stats ==> ShowsCounters(e.fields, ZERO)
  {
    var s := if modeKey in stats then stats[modeKey] else ZERO;
    Embed(CARD_COLOR, Title(username), Description(modeKey), CardFields(s), FOOTER)
  }

  /** A card shows at most one set of counters: they can be read back from it. */
  lemma ShowsDetermines(fields: seq<EmbedField>, a: Counters, b: Counters)
    requires ShowsCounters(fields, a) && ShowsCounters(fields, b)
    ensures a == b
  {
    NatToStringInjective(a.kills, b.kills);
    NatToStringInjective(a.deaths, b.deaths);
    NatToStringInjective(a.finalKills, b.finalKills);
    NatToStringInjective(a.finalDeaths, b.finalDeaths);
  }

  /**
   * Removing the backticks from a card title gives back the username exactly
   * when the username has no backtick of its own.
   */
  lemma TitleRoundTrip(username: string)
    ensures StripBackticks(Title(username)) == username <==> '`' !in username
  {
    if '`' !in username {
      StripConcat("``", username);
      StripConcat("``" + username, "``");
      assert StripBackticks("``") == [];
    }
  }

  /** Whole seconds of a duration in milliseconds, rounded down. */
  function Seconds(ms: int): int {
    ms / 1000   // Euclidean division by a positive divisor is the floor
  }

  /** The remainder of a duration modulo 1000, with the sign of the duration (truncating remainder). */
  function Milliseconds(ms: int): (r: int)
    ensures ms >= 0 ==> Seconds(ms) * 1000 + r == ms && 0 <= r < 1000
    ensures ms < 0 ==> -1000 < r <= 0 && (ms - r) % 1000 == 0
  {
    if ms >= 0 then ms % 1000 else -((-ms) % 1000)
  }

  /** The remaining wait as shown in the cooldown notice: seconds, then milliseconds. */
  function FormatCooldown(ms: int): (r: string)
    ensures 0 <= ms ==> r == NatToString(ms / 1000) + "s, " + NatToString(ms % 1000) + "ms"
    ensures 0 <= ms ==> DigitsValue(NatToString(ms / 1000)) * 1000 + DigitsValue(NatToString(ms % 1000)) == ms
    ensures 0 <= ms ==> |NatToString(ms % 1000)| <= 3
  {
    if 0 <= ms then
      NatToStringValue(ms / 1000);
      NatToStringValue(ms % 1000);
      assert ms % 1000 >= 100 ==> NatToString(ms % 1000) == NatToString(ms % 1000 / 10) + [DigitChar(ms % 1000 % 10)];
      IntToString(Seconds(ms)) + "s, " + IntToString(Milliseconds(ms)) + "ms"
    else
      IntToString(Seconds(ms)) + "s, " + IntToString(Milliseconds(ms)) + "ms"
  }

  /** The notice shown to a user who must still wait `remaining` milliseconds. */
  function CooldownNotice(remaining: int, commandName: string): (e: Embed)
    ensures e.color == NOTICE_COLOR && e.title == "Cooldown" && e.fields == [] && e.footer == FOOTER
    ensures var w := FormatCooldown(remaining);
      && |e.description| == 13 + |w| + 18 + |commandName| + 2
      && e.description[13..13 + |w|] == w
      && e.description[13 + |w| + 18..|e.description| - 2] == commandName
  {
    var w := FormatCooldown(remaining);
    var text := "Please wait `" + w + "` before reusing `" + commandName + "`.";
    assert |"Please wait `"| == 13 && |"` before reusing `"| == 18 && |"`."| == 2;
    assert text[13..13 + |w|] == w;
    assert text[13 + |w| + 18..|text| - 2] == commandName;
    Embed(NOTICE_COLOR, "Cooldown", text, [], FOOTER)
  }

  /** One menu option per entry, in order, marked default when its key is `selected`. */
  function Options(entries: seq<ModeEntry>, selected: string): (opts: seq<MenuOption>)
    ensures |opts| == |entries|
    ensures forall i :: 0 <= i < |entries| ==>
      opts[i] == MenuOption(entries[i].labelText, entries[i].key, entries[i].key == selected)
  {
    if entries == [] then
      []
    else
      var first := MenuOption(entries[0].labelText, entries[0].key, entries[0].key == selected);
      [first] + Options(entries[1..], selected)
  }

  /** The mode-selection menu with `selected` as the current mode. */
  function BuildMenu(selected: string): (m: Menu)
    ensures m.customId == MENU_ID
    ensures |m.options| == |MODES|
    ensures forall i :: 0 <= i < |MODES| ==>
      && m.options[i].value == MODES[i].key
      && m.options[i].labelText == MODES[i].labelText
      && (m.options[i].isDefault <==> MODES[i].key == selected)
  {
    Menu(MENU_ID, "Select Mode", Options(MODES, selected))
  }

  /** The number of options marked default. */
  function DefaultCount(opts: seq<MenuOption>): nat {
    if opts == [] then 0 else (if opts[0].isDefault then 1 else 0) + DefaultCount(opts[1..])
  }

  lemma {:induction false} DefaultCountOptions(entries: seq<ModeEntry>, selected: string)
    requires Distinct(Keys(entries))
    ensures DefaultCount(Options(entries, selected)) == if selected in Keys(entries) then 1 else 0
  {
    if entries != [] {
      var rest := entries[1..];
      assert Keys(rest) == Keys(entries)[1..];
      assert Distinct(Keys(rest));
      DefaultCountOptions(rest, selected);
      assert Options(entries, selected)[1..] == Options(rest, selected);
      assert selected in Keys(entries) <==> selected == entries[0].key || selected in Keys(rest);
      if selected == entries[0].key {
        assert selected !in Keys(rest);
      }
    }
  }

  /** Exactly one option is the default when `selected` is a registered mode, and none otherwise. */
  lemma ExactlyOneDefault(selected: string)
    ensures DefaultCount(BuildMenu(selected).options) == if selected in ModeKeys() then 1 else 0
  {
    RegistryDistinct();
    DefaultCountOptions(MODES, selected);
    RegistryOrder();
    TiersCover();
  }
}
