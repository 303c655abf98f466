/** The kind/tier price tables and the lookup that prices a conversion. */
module Costs {
  import opened Wrappers

  /** A price table: (tier, cost) pairs, like the source's `{tier: cost}` dicts. */
  type Table = seq<(int, int)>

  /** Audio bit rates in kbps and their prices in coins. */
  const AudioCosts: Table := [(128, 20), (192, 30), (320, 40)]

  /** Video heights in pixels and their prices in coins. */
  const VideoCosts: Table := [(144, 30), (360, 50), (720, 80), (1080, 120)]

  predicate HasTier(t: Table, tier: int) {
    exists i :: 0 <= i < |t| && t[i].0 == tier
  }

  /** Tiers are keys: no tier appears twice. */
  predicate DistinctTiers(t: Table) {
    forall i, j :: 0 <= i < j < |t| ==> t[i].0 != t[j].0
  }

  /** `max(table.values())`: an entry's cost that no entry exceeds. */
  function MaxCost(t: Table): (m: int)
    requires |t| > 0
    ensures exists i :: 0 <= i < |t| && t[i].1 == m
    ensures forall i :: 0 <= i < |t| ==> t[i].1 <= m
  {
    if |t| == 1 then t[0].1
    else
      var rest := MaxCost(t[1..]);
      assert forall i :: 1 <= i < |t| ==> t[i] == t[1..][i - 1];
      if t[0].1 >= rest then t[0].1 else rest
  }

  /** `table.get(tier)`: the cost stored under `tier`, if any. */
  function Find(t: Table, tier: int): (r: Option<int>)
    ensures r.None? <==> !HasTier(t, tier)
    ensures r.Some? ==> (tier, r.value) in t
  {
    if |t| == 0 then None
    else if t[0].0 == tier then Some(t[0].1)
    else
      var r := Find(t[1..], tier);
      assert forall i :: 1 <= i < |t| ==> t[i] == t[1..][i - 1];
      assert HasTier(t, tier) ==> HasTier(t[1..], tier) by {
        if HasTier(t, tier) {
          var i :| 0 <= i < |t| && t[i].0 == tier;
          assert t[1..][i - 1].0 == tier;
        }
      }
      r
  }

  /** `table.get(tier, max(table.values()))`: an unknown tier costs the table's maximum. */
  function LookupOrMax(t: Table, tier: int): (c: int)
    requires |t| > 0 && DistinctTiers(t)
    ensures forall i :: 0 <= i < |t| && t[i].0 == tier ==> c == t[i].1
    ensures !HasTier(t, tier) ==> c == MaxCost(t)
  {
    match Find(t, tier)
    case Some(c) => c
    case None => MaxCost(t)
  }

  /** The table consulted for a session type: audio only for exactly "audio". */
  function TableFor(sessionType: string): (t: Table)
    ensures |t| > 0 && DistinctTiers(t)
    ensures sessionType == "audio" ==> t == AudioCosts
    ensures sessionType != "audio" ==> t == VideoCosts
  {
    if sessionType == "audio" then AudioCosts else VideoCosts
  }

  /** The price of a conversion of `sessionType` at `tier` (bot.py:397-400). */
  function CostFor(sessionType: string, tier: int): (c: int)
    // exactly "audio" is priced from the audio table
    ensures sessionType == "audio" ==>
      && (forall i :: 0 <= i < |AudioCosts| && AudioCosts[i].0 == tier ==> c == AudioCosts[i].1)
      && (!HasTier(AudioCosts, tier) ==> c == MaxCost(AudioCosts))
    // every other session type, a missing one included, from the video table
    ensures sessionType != "audio" ==>
      && (forall i :: 0 <= i < |VideoCosts| && VideoCosts[i].0 == tier ==> c == VideoCosts[i].1)
      && (!HasTier(VideoCosts, tier) ==> c == MaxCost(VideoCosts))
  {
    LookupOrMax(TableFor(sessionType), tier)
  }

  /** Every price is a configured entry of the session's table, hence positive. */
  lemma CostIsConfigured(sessionType: string, tier: int)
    ensures exists i :: 0 <= i < |TableFor(sessionType)| && TableFor(sessionType)[i].1 == CostFor(sessionType, tier)
    ensures CostFor(sessionType, tier) >= 20
  {
    var t := TableFor(sessionType);
    if HasTier(t, tier) {
      var i :| 0 <= i < |t| && t[i].0 == tier;
      assert CostFor(sessionType, tier) == t[i].1;
    } else {
      assert CostFor(sessionType, tier) == MaxCost(t);
    }
  }

  /** The audio prices: exact tiers, and the most expensive for an unknown tier. */
  lemma AudioPrices()
    ensures CostFor("audio", 128) == 20 && CostFor("audio", 320) == 40
    ensures CostFor("audio", 256) == 40
  {
    assert !HasTier(AudioCosts, 256);
  }

  /** The video prices: exact tiers, and the most expensive for an unknown tier. */
  lemma VideoPrices()
    ensures CostFor("video", 720) == 80 && CostFor("video", 999) == 120
  {
    assert VideoCosts[3].1 == 120;
    assert !HasTier(VideoCosts, 999);
  }

  /** The session type matches "audio" exactly: any other spelling is priced as video. */
  lemma CaseSensitivePrice()
    ensures CostFor("Audio", 128) == 120
  {
    assert "Audio" != "audio" by {
      assert "Audio"[0] != "audio"[0];
    }
    assert VideoCosts[3].1 == 120;
    assert !HasTier(VideoCosts, 128);
  }
}
