/** The leaderboard query's reshaping of the fetched records: one leaderboard
    row and one competition row per record, in order, and a map from each
    normalised wallet address to the record's profile. */
module LeaderboardQuery {
  import opened Common
  import opened JsMap
  import opened LeaderboardTable

  /** The metrics a record carries for the leaderboard and for the competition. */
  datatype Metrics = Metrics(trades: real, volume: real, netProfit: real, investment: real, gain: real)

  /** One entry of `result.data`: the address (`record[0]`) and its data
      (`record[1]`). The profile's shape is not looked into here. */
  datatype Record<P> = Record(address: string, leaderboard: Metrics, competition: Metrics, profile: P)

  /** `record[0].toString().toLowerCase().trim()`. */
  function ProfileKey(address: string): (key: string)
    ensures key == [] || (!IsWhitespace(key[0]) && !IsWhitespace(key[|key| - 1]))
    ensures NoCapital(key)
  {
    TrimEnds(Lower(address));
    TrimLowerHasNoCapital(address);
    Trim(Lower(address))
  }

  /** The table row a record's metrics become. */
  function Row(address: string, m: Metrics): (row: Leader)
    ensures row.walletAddress == address && row.volume == m.volume && row.trades == m.trades
    ensures row.netProfit == m.netProfit && row.investment == m.investment && row.gain == m.gain
  {
    Leader(address, m.trades, m.volume, m.netProfit, m.investment, m.gain)
  }

  /** The leaderboard rows: one per record, in order, from its leaderboard
      metrics. */
  function Leaderboard<P>(records: seq<Record<P>>): (rows: seq<Leader>)
    ensures |rows| == |records|
    ensures forall i :: 0 <= i < |records| ==> rows[i] == Row(records[i].address, records[i].leaderboard)
  {
    seq(|records|, i requires 0 <= i < |records| => Row(records[i].address, records[i].leaderboard))
  }

  /** The competition rows: a pure `map` over the records. */
  function Competition<P>(records: seq<Record<P>>): (rows: seq<Leader>)
    ensures |rows| == |records|
    ensures forall i :: 0 <= i < |records| ==> rows[i] == Row(records[i].address, records[i].competition)
  {
    seq(|records|, i requires 0 <= i < |records| => Row(records[i].address, records[i].competition))
  }

  /** The keys of the records, in record order. */
  function Keys<P>(records: seq<Record<P>>): (ks: seq<string>)
    ensures |ks| == |records|
    ensures forall i :: 0 <= i < |records| ==> ks[i] == ProfileKey(records[i].address)
  {
    seq(|records|, i requires 0 <= i < |records| => ProfileKey(records[i].address))
  }

  /** The profiles of the records, in record order. */
  function Profiles<P>(records: seq<Record<P>>): (ps: seq<P>)
    ensures |ps| == |records|
    ensures forall i :: 0 <= i < |records| ==> ps[i] == records[i].profile
  {
    seq(|records|, i requires 0 <= i < |records| => records[i].profile)
  }

  /** The profiles map after `set` of each record's profile under its key, in
      record order. */
  function ProfilesOf<P>(records: seq<Record<P>>): JsMap<string, P>
  {
    SetEach(Keys(records), Profiles(records))
  }

  /** The `map` callback over `result.data`, with its `profiles.set` side
      effect: the leaderboard rows and the profiles map are built together. */
  method Reshape<P>(records: seq<Record<P>>) returns (leaderboard: seq<Leader>, profiles: JsMap<string, P>, competition: seq<Leader>)
    ensures leaderboard == Leaderboard(records)
    ensures profiles == ProfilesOf(records)
    ensures competition == Competition(records)
  {
    profiles := Empty();
    leaderboard := [];
    var i := 0;
    while i < |records|
      invariant 0 <= i <= |records|
      invariant leaderboard == Leaderboard(records[..i])
      invariant profiles == ProfilesOf(records[..i])
    {
      var record := records[i];
      LeaderboardStep(records, i);
      ProfilesStep(records, i);
      profiles := Set(profiles, ProfileKey(record.address), record.profile);
      leaderboard := leaderboard + [Row(record.address, record.leaderboard)];
      i := i + 1;
    }
    assert records[..i] == records;
    competition := Competition(records);
  }

  /** One more record adds its row. */
  lemma LeaderboardStep<P>(records: seq<Record<P>>, i: nat)
    requires i < |records|
    ensures Leaderboard(records[..i + 1]) == Leaderboard(records[..i]) + [Row(records[i].address, records[i].leaderboard)]
  {
  }

  /** One more record sets its profile under its key. */
  lemma ProfilesStep<P>(records: seq<Record<P>>, i: nat)
    requires i < |records|
    ensures ProfilesOf(records[..i + 1]) ==
      Set(ProfilesOf(records[..i]), ProfileKey(records[i].address), records[i].profile)
  {
    PrefixKeysProfiles(records, i);
    PrefixKeysProfiles(records, i + 1);
    SetEachStep(Keys(records), Profiles(records), i);
  }

  lemma PrefixKeysProfiles<P>(records: seq<Record<P>>, n: nat)
    requires n <= |records|
    ensures Keys(records[..n]) == Keys(records)[..n]
    ensures Profiles(records[..n]) == Profiles(records)[..n]
  {
  }

  /** The two lists line up: same length, and the same wallet at each index. */
  lemma LeaderboardAndCompetitionAlign<P>(records: seq<Record<P>>)
    ensures |Leaderboard(records)| == |Competition(records)|
    ensures forall i :: 0 <= i < |records| ==>
      Leaderboard(records)[i].walletAddress == Competition(records)[i].walletAddress == records[i].address
  {
  }

  /** A later record with the same key overwrites an earlier one: the profile
      under a key is that of the last record with the key. */
  lemma ProfilesLastWins<P>(records: seq<Record<P>>, i: nat)
    requires i < |records|
    requires forall j :: i < j < |records| ==> ProfileKey(records[j].address) != ProfileKey(records[i].address)
    ensures Get(ProfilesOf(records), ProfileKey(records[i].address)) == Some(records[i].profile)
  {
    SetEachLastWins(Keys(records), Profiles(records), i);
  }

  /** A key no record has is missing from the map. */
  lemma ProfilesMissing<P>(records: seq<Record<P>>, key: string)
    requires forall j :: 0 <= j < |records| ==> ProfileKey(records[j].address) != key
    ensures Get(ProfilesOf(records), key) == None
  {
    SetEachMissing(Keys(records), Profiles(records), key);
  }

  lemma ProfilesValid<P>(records: seq<Record<P>>)
    ensures Valid(ProfilesOf(records))
  {
    SetEachValid(Keys(records), Profiles(records));
  }

  /** The map lists each key once, where a record first has it. */
  lemma ProfilesKeyOrder<P>(records: seq<Record<P>>)
    ensures ProfilesOf(records).keys == FirstOccurrences(Keys(records))
  {
    SetEachKeyOrder(Keys(records), Profiles(records));
  }

  /** A key of the map, looked up again the way the profile page does
      (`trim` then `toLowerCase`), is the same key. */
  lemma ProfileKeyStable(address: string)
    ensures Lower(Trim(ProfileKey(address))) == ProfileKey(address)
  {
    var key := ProfileKey(address);
    TrimEnds(Lower(address));
    TrimmedIsFixed(key);
    TrimLowerCommute(address);
    LowerIdempotent(Trim(address));
  }

  /** Every key of the map is the key of some record. */
  lemma {:induction false} ProfilesKeysFromRecords<P>(records: seq<Record<P>>)
    ensures forall i :: 0 <= i < |ProfilesOf(records).keys| ==>
      exists j :: 0 <= j < |records| && ProfilesOf(records).keys[i] == ProfileKey(records[j].address)
  {
    ProfilesKeyOrder(records);
    var ks := Keys(records);
    forall i | 0 <= i < |ProfilesOf(records).keys|
      ensures exists j :: 0 <= j < |records| && ProfilesOf(records).keys[i] == ProfileKey(records[j].address)
    {
      var j := IndexOf(ks, FirstOccurrences(ks)[i]);
      assert ks[j] == ProfileKey(records[j].address);
    }
  }

  /** Every key of the map is found again by the profile page's own
      normalisation (`trim` then `toLowerCase`). */
  lemma ProfilesKeysStable<P>(records: seq<Record<P>>, key: string)
    requires key in ProfilesOf(records).keys
    ensures Lower(Trim(key)) == key
  {
    var keys := ProfilesOf(records).keys;
    var i :| 0 <= i < |keys| && keys[i] == key;
    ProfilesKeysFromRecords(records);
    var j :| 0 <= j < |records| && key == ProfileKey(records[j].address);
    ProfileKeyStable(records[j].address);
  }
}
