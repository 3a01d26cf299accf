/**
 * Aggregation of a player's raw Bedwars statistics into per-mode void
 * counters: the overall mode reads unprefixed fields, a normal mode reads
 * fields prefixed with its key, and a merge mode sums the counters read
 * under the doubles and the fours prefixes.
 */
module Stats {

  import opened Wrappers
  import opened Registry

  /** The provider's Bedwars statistics object: field name to numeric value. */
  type Blob = map<string, nat>

  /** The four void counters shown for one mode. */
  datatype Counters = Counters(kills: nat, deaths: nat, finalKills: nat, finalDeaths: nat)

  const ZERO := Counters(0, 0, 0, 0)

  /** Counters per mode key. */
  type PlayerStats = map<string, Counters>

  /** The player record of the provider's response; `bedwars` is absent when the player has no Bedwars statistics. */
  datatype Player = Player(bedwars: Option<Blob>)

  const KILLS_SUFFIX := "_void_kills_bedwars"
  const DEATHS_SUFFIX := "_void_deaths_bedwars"
  const FINAL_KILLS_SUFFIX := "_void_final_kills_bedwars"
  const FINAL_DEATHS_SUFFIX := "_void_final_deaths_bedwars"

  /** The value of field `name`, or 0 when the blob has no such field. */
  function Field(bw: Blob, name: string): nat {
    if name in bw then bw[name] else 0
  }

  /** The counters of the mode whose fields are prefixed with `key`. */
  function GetModeStats(bw: Blob, key: string): (c: Counters)
    ensures key + KILLS_SUFFIX in bw ==> c.kills == bw[key + KILLS_SUFFIX]
    ensures key + KILLS_SUFFIX !in bw ==> c.kills == 0
    ensures key + DEATHS_SUFFIX in bw ==> c.deaths == bw[key + DEATHS_SUFFIX]
    ensures key + DEATHS_SUFFIX !in bw ==> c.deaths == 0
    ensures key + FINAL_KILLS_SUFFIX in bw ==> c.finalKills == bw[key + FINAL_KILLS_SUFFIX]
    ensures key + FINAL_KILLS_SUFFIX !in bw ==> c.finalKills == 0
    ensures key + FINAL_DEATHS_SUFFIX in bw ==> c.finalDeaths == bw[key + FINAL_DEATHS_SUFFIX]
    ensures key + FINAL_DEATHS_SUFFIX !in bw ==> c.finalDeaths == 0
  {
    Counters(
      Field(bw, key + KILLS_SUFFIX),
      Field(bw, key + DEATHS_SUFFIX),
      Field(bw, key + FINAL_KILLS_SUFFIX),
      Field(bw, key + FINAL_DEATHS_SUFFIX))
  }

  /** The overall counters, read from the unprefixed field names. */
  function OverallStats(bw: Blob): (c: Counters)
    ensures "void_kills_bedwars" in bw ==> c.kills == bw["void_kills_bedwars"]
    ensures "void_kills_bedwars" !in bw ==> c.kills == 0
    ensures "void_deaths_bedwars" in bw ==> c.deaths == bw["void_deaths_bedwars"]
    ensures "void_deaths_bedwars" !in bw ==> c.deaths == 0
    ensures "void_final_kills_bedwars" in bw ==> c.finalKills == bw["void_final_kills_bedwars"]
    ensures "void_final_kills_bedwars" !in bw ==> c.finalKills == 0
    ensures "void_final_deaths_bedwars" in bw ==> c.finalDeaths == bw["void_final_deaths_bedwars"]
    ensures "void_final_deaths_bedwars" !in bw ==> c.finalDeaths == 0
  {
    Counters(
      Field(bw, "void_kills_bedwars"),
      Field(bw, "void_deaths_bedwars"),
      Field(bw, "void_final_kills_bedwars"),
      Field(bw, "void_final_deaths_bedwars"))
  }

  /** Field-wise sum of two counter records. */
  function Merge(a: Counters, b: Counters): (c: Counters)
    ensures c.kills == a.kills + b.kills && c.deaths == a.deaths + b.deaths
    ensures c.finalKills == a.finalKills + b.finalKills && c.finalDeaths == a.finalDeaths + b.finalDeaths
  {
    Counters(a.kills + b.kills, a.deaths + b.deaths, a.finalKills + b.finalKills, a.finalDeaths + b.finalDeaths)
  }

  /** The counters a merge mode reports: its doubles and its fours counters summed. */
  function MergedStats(bw: Blob, mode: string): Counters {
    Merge(GetModeStats(bw, DOUBLES_PREFIX + mode), GetModeStats(bw, FOURS_PREFIX + mode))
  }

  /** The counters of registered mode `key`, according to its tier. */
  function ModeStats(bw: Blob, key: string): Counters {
    if key == OVERALL then OverallStats(bw)
    else if key in MERGE_MODES then MergedStats(bw, key)
    else GetModeStats(bw, key)
  }

  /** The aggregated statistics: every registered mode and nothing else. */
  function Aggregate(bw: Blob): (stats: PlayerStats)
    ensures stats.Keys == ModeKeys()
    ensures OVERALL in stats && stats[OVERALL] == OverallStats(bw)
    ensures forall m :: m in NORMAL_MODES ==> m in stats && stats[m] == GetModeStats(bw, m)
    ensures forall m :: m in MERGE_MODES ==> m in stats && stats[m] == MergedStats(bw, m)
  {
    TiersCover();
    TiersDisjoint();
    map k | k in ModeKeys() :: ModeStats(bw, k)
  }

  /** A map holding exactly the registered modes, each with its tier's counters, is the aggregate. */
  lemma AggregateUnique(bw: Blob, s: PlayerStats)
    requires forall k :: k in s <==> k == OVERALL || k in NORMAL_MODES || k in MERGE_MODES
    requires forall k :: k in s ==> s[k] == ModeStats(bw, k)
    ensures s == Aggregate(bw)
  {
    TiersCover();
    assert s.Keys == Aggregate(bw).Keys;
  }

  /** The Bedwars object of a player, or the empty object when the player has none. */
  function BedwarsBlob(p: Player): Blob {
    match p.bedwars
    case Some(bw) => bw
    case None => map[]
  }

  /**
   * The aggregation step of a statistics fetch: no player record gives no
   * statistics at all, otherwise every mode is filled in tier by tier.
   */
  method FetchStats(player: Option<Player>) returns (stats: Option<PlayerStats>)
    ensures player.None? ==> stats.None?
    ensures player.Some? ==> stats == Some(Aggregate(BedwarsBlob(player.value)))
  {
    if player.None? {
      return None;
    }
    var bw := BedwarsBlob(player.value);

    var s: PlayerStats := map[];
    s := s[OVERALL := Counters(
      Field(bw, "void_kills_bedwars"),
      Field(bw, "void_deaths_bedwars"),
      Field(bw, "void_final_kills_bedwars"),
      Field(bw, "void_final_deaths_bedwars"))];

    for i := 0 to |NORMAL_MODES|
      invariant forall k :: k in s <==> k == OVERALL || k in NORMAL_MODES[..i]
      invariant forall k :: k in s ==> s[k] == ModeStats(bw, k)
    {
      var m := NORMAL_MODES[i];
      assert NORMAL_MODES[..i + 1] == NORMAL_MODES[..i] + [m];
      assert ModeStats(bw, m) == GetModeStats(bw, m) by { TiersDisjoint(); }
      s := s[m := GetModeStats(bw, m)];
    }

    assert NORMAL_MODES[..|NORMAL_MODES|] == NORMAL_MODES;
    for i := 0 to |MERGE_MODES|
      invariant forall k :: k in s <==> k == OVERALL || k in NORMAL_MODES || k in MERGE_MODES[..i]
      invariant forall k :: k in s ==> s[k] == ModeStats(bw, k)
    {
      var m := MERGE_MODES[i];
      assert MERGE_MODES[..i + 1] == MERGE_MODES[..i] + [m];
      var d := GetModeStats(bw, DOUBLES_PREFIX + m);
      var f := GetModeStats(bw, FOURS_PREFIX + m);
      assert ModeStats(bw, m) == Merge(d, f) by { TiersDisjoint(); }
      s := s[m := Merge(d, f)];
    }

    assert MERGE_MODES[..|MERGE_MODES|] == MERGE_MODES;
    AggregateUnique(bw, s);
    return Some(s);
  }

  /** Merging is commutative, and merging with all-zero counters changes nothing. */
  lemma MergeZero(a: Counters, b: Counters)
    ensures Merge(a, b) == Merge(b, a)
    ensures Merge(a, ZERO) == a && Merge(ZERO, a) == a
  {
  }

  /** A blob without any fields aggregates to all-zero counters for every registered mode. */
  lemma EmptyBlobIsZero()
    ensures forall k :: k in ModeKeys() ==> k in Aggregate(map[]) && Aggregate(map[])[k] == ZERO
  {
  }

  /** The four field names read for prefix `key`. */
  function FieldNames(key: string): set<string> {
    {key + KILLS_SUFFIX, key + DEATHS_SUFFIX, key + FINAL_KILLS_SUFFIX, key + FINAL_DEATHS_SUFFIX}
  }

  /** Every field name the aggregation reads. */
  function ReadFields(): set<string> {
    {"void_kills_bedwars", "void_deaths_bedwars", "void_final_kills_bedwars", "void_final_deaths_bedwars"}
    + (set m, f | m in NORMAL_MODES && f in FieldNames(m) :: f)
    + (set m, f | m in MERGE_MODES && f in FieldNames(DOUBLES_PREFIX + m) :: f)
    + (set m, f | m in MERGE_MODES && f in FieldNames(FOURS_PREFIX + m) :: f)
  }

  /** Two blobs that agree on the fields read (a missing field counting as 0) aggregate alike. */
  lemma {:induction false} AggregateReadsOnly(a: Blob, b: Blob)
    requires forall f :: f in ReadFields() ==> Field(a, f) == Field(b, f)
    ensures Aggregate(a) == Aggregate(b)
  {
    forall k | k in ModeKeys()
      ensures ModeStats(a, k) == ModeStats(b, k)
    {
      TiersCover();
      if k == OVERALL {
      } else if k in MERGE_MODES {
        assert FieldNames(DOUBLES_PREFIX + k) <= ReadFields();
        assert FieldNames(FOURS_PREFIX + k) <= ReadFields();
      } else {
        assert FieldNames(k) <= ReadFields();
      }
    }
  }
}
