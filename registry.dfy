/**
 * The static mode registry: every Bedwars mode the bot knows, in the order
 * in which it is declared (and therefore listed in the selection menu), and
 * the two lists that decide how each mode is aggregated.
 */
module Registry {

  import opened Wrappers

  /** One registry entry: the internal mode key and its human-readable label. */
  datatype ModeEntry = ModeEntry(key: string, labelText: string)

  /** The registry in declaration order. */
  const MODES: seq<ModeEntry> := [
    ModeEntry("overall", "Overall"),
    ModeEntry("eight_one", "Solo"),
    ModeEntry("eight_two", "Doubles"),
    ModeEntry("four_three", "Threes"),
    ModeEntry("four_four", "Fours"),
    ModeEntry("two_four", "4v4"),
    ModeEntry("castle", "Castle"),
    ModeEntry("rush", "Rush"),
    ModeEntry("lucky", "Lucky"),
    ModeEntry("swap", "Swappage"),
    ModeEntry("ultimate", "Ultimate"),
    ModeEntry("voidless", "Voidless"),
    ModeEntry("underworld", "Underworld")
  ]

  /** The key of the mode that reads unprefixed fields. */
  const OVERALL := "overall"

  /** Modes whose fields are named after the mode key itself. */
  const NORMAL_MODES: seq<string> := [
    "eight_one", "eight_two", "four_three", "four_four", "two_four", "castle"
  ]

  /** Modes recorded separately under the doubles and fours base modes and summed. */
  const MERGE_MODES: seq<string> := [
    "rush", "lucky", "swap", "ultimate", "voidless", "underworld"
  ]

  /** The two base-mode prefixes a merge mode is read under. */
  const DOUBLES_PREFIX := "eight_two_"
  const FOURS_PREFIX := "four_four_"

  /** The keys of `entries`, in order. */
  function Keys(entries: seq<ModeEntry>): (ks: seq<string>)
    ensures |ks| == |entries|
    ensures forall i :: 0 <= i < |entries| ==> ks[i] == entries[i].key
  {
    seq(|entries|, i requires 0 <= i < |entries| => entries[i].key)
  }

  /** The set of registered mode keys. */
  function ModeKeys(): set<string> {
    set e | e in MODES :: e.key
  }

  predicate Distinct(ks: seq<string>) {
    forall i, j :: 0 <= i < j < |ks| ==> ks[i] != ks[j]
  }

  /** The label registered for `key`, if any. */
  function Label(key: string): (r: Option<string>)
    ensures r.Some? <==> key in ModeKeys()
    ensures r.Some? ==> ModeEntry(key, r.value) in MODES
  {
    LabelIn(MODES, key)
  }

  function LabelIn(entries: seq<ModeEntry>, key: string): (r: Option<string>)
    ensures r.Some? <==> exists e :: e in entries && e.key == key
    ensures r.Some? ==> ModeEntry(key, r.value) in entries
  {
    if entries == [] then None
    else if entries[0].key == key then Some(entries[0].labelText)
    else LabelIn(entries[1..], key)
  }

  /** The registry lists the overall mode, then the normal modes, then the merge modes. */
  lemma RegistryOrder()
    ensures Keys(MODES) == [OVERALL] + NORMAL_MODES + MERGE_MODES
  {
    var ks := [OVERALL] + NORMAL_MODES + MERGE_MODES;
    assert |ks| == |MODES|;
    forall i | 0 <= i < |MODES|
      ensures MODES[i].key == ks[i]
    {
    }
  }

  /** No mode key is registered twice. */
  lemma RegistryDistinct()
    ensures Distinct(Keys(MODES))
  {
    var ks := Keys(MODES);
    forall i, j | 0 <= i < j < |ks|
      ensures ks[i] != ks[j]
    {
      // no two registered keys share both their length and their last letter
      assert |ks[i]| != |ks[j]| || ks[i][|ks[i]| - 1] != ks[j][|ks[j]| - 1];
    }
  }

  /** The three aggregation tiers do not overlap. */
  lemma TiersDisjoint()
    ensures OVERALL !in NORMAL_MODES && OVERALL !in MERGE_MODES
    ensures forall k :: k in NORMAL_MODES ==> k !in MERGE_MODES
  {
  }

  /** A key is registered exactly when it belongs to one of the three tiers. */
  lemma TiersCover()
    ensures forall k :: k in ModeKeys() <==> k == OVERALL || k in NORMAL_MODES || k in MERGE_MODES
  {
    RegistryOrder();
    forall k
      ensures k in ModeKeys() <==> k in Keys(MODES)
    {
      if k in ModeKeys() {
        var e :| e in MODES && e.key == k;
        var i :| 0 <= i < |MODES| && MODES[i] == e;
        assert Keys(MODES)[i] == k;
      }
      if k in Keys(MODES) {
        var i :| 0 <= i < |MODES| && Keys(MODES)[i] == k;
        assert MODES[i] in MODES;
      }
    }
  }
}
