/** The profile page: which profile it shows (the one a search selects, or
    the connected wallet's), and the four groupings of that profile's
    records by market address. Each grouping fills a `Map` from market
    address to the list of that market's entries, pushing in record order. */
module Profile {
  import opened Common
  import opened JsMap
  import opened LeaderboardQuery

  datatype Market = Market(address: string)
  datatype Tx = Tx(hash: string, amount: real)
  datatype TradeInfo = TradeInfo(hash: string, amount: real, side: int)

  datatype Mint = Mint(market: Market, tx: Tx)
  datatype Trade = Trade(market: Market, trade: TradeInfo)
  datatype Exercise = Exercise(market: Market, tx: Tx)
  datatype Unclaimed = Unclaimed(market: Market, amount: real)

  datatype UserProfile = UserProfile(mints: seq<Mint>, trades: seq<Trade>, excercises: seq<Exercise>, unclaimed: seq<Unclaimed>)

  /** The search test on a map key: the lower-cased key contains the
      lower-cased search. */
  function KeyMatches(userFilter: string): string -> bool
  {
    (key: string) => Contains(Lower(key), Lower(userFilter))
  }

  /** The profile shown: none without profiles or without a wallet; the
      profile of the one key the search matches, when it matches exactly one
      (non-empty) key; otherwise the wallet's own profile. */
  function SelectProfile<P>(profiles: Option<JsMap<string, P>>, walletAddress: string, userFilter: string): (r: Option<P>)
    ensures profiles.None? || walletAddress == "" ==> r == None
  {
    if profiles.None? || walletAddress == "" then None
    else
      var m := profiles.value;
      var address := SearchedAddress(m.keys, userFilter);
      if userFilter != "" && address != "" then Get(m, Lower(Trim(address)))
      else Get(m, Lower(Trim(walletAddress)))
  }

  /** The key the search singles out: the only matching key, or "" when
      none or several match. */
  function SearchedAddress(keys: seq<string>, userFilter: string): (address: string)
    ensures address != "" ==> address in keys && KeyMatches(userFilter)(address)
  {
    var matching := Filter(keys, KeyMatches(userFilter));
    if |matching| == 1 then matching[0] else ""
  }

  /** A search matching exactly one non-empty key looks that key up. */
  lemma SearchLooksUpMatch<P>(m: JsMap<string, P>, walletAddress: string, userFilter: string, key: string)
    requires walletAddress != "" && userFilter != "" && key != ""
    requires Filter(m.keys, KeyMatches(userFilter)) == [key]
    ensures SelectProfile(Some(m), walletAddress, userFilter) == Get(m, Lower(Trim(key)))
  {
    assert SearchedAddress(m.keys, userFilter) == key;
  }

  /** A search matching exactly one non-empty key of the query's map shows
      that key's profile, and it is there. */
  lemma SearchSelectsMatch<P>(records: seq<Record<P>>, walletAddress: string, userFilter: string, key: string)
    requires walletAddress != "" && userFilter != "" && key != ""
    requires Filter(ProfilesOf(records).keys, KeyMatches(userFilter)) == [key]
    ensures key in ProfilesOf(records).entries
    ensures SelectProfile(Some(ProfilesOf(records)), walletAddress, userFilter) == Some(ProfilesOf(records).entries[key])
  {
    var m := ProfilesOf(records);
    SearchLooksUpMatch(m, walletAddress, userFilter, key);
    assert key in m.keys by {
      assert Filter(m.keys, KeyMatches(userFilter))[0] == key;
    }
    ProfilesKeysStable(records, key);
    ProfilesValid(records);
    assert key in m.entries;
  }

  /** Without a search that singles out a key, the page shows the profile
      the query stored under the wallet's own key. */
  lemma WalletProfileShown<P>(records: seq<Record<P>>, walletAddress: string, userFilter: string)
    requires walletAddress != ""
    requires userFilter == "" || |Filter(ProfilesOf(records).keys, KeyMatches(userFilter))| != 1
    ensures SelectProfile(Some(ProfilesOf(records)), walletAddress, userFilter) ==
      Get(ProfilesOf(records), ProfileKey(walletAddress))
  {
    TrimLowerCommute(walletAddress);
  }

  /** The map's `get`, then `push` onto the list found or a new one-entry
      list, then `set`. */
  function Push<V>(m: JsMap<string, seq<V>>, k: string, v: V): (r: JsMap<string, seq<V>>)
    ensures k in r.entries
    ensures k in m.entries ==> r.entries[k] == m.entries[k] + [v]
    ensures k !in m.entries ==> r.entries[k] == [v]
    ensures forall other :: other != k ==> Get(r, other) == Get(m, other)
  {
    match Get(m, k)
    case Some(list) => Set(m, k, list + [v])
    case None => Set(m, k, [v])
  }

  /** The grouping of records by market address: each record pushed in turn. */
  function Grouped<R, V>(records: seq<R>, address: R -> string, item: R -> V): JsMap<string, seq<V>>
  {
    if records == [] then Empty()
    else
      var last := records[|records| - 1];
      Push(Grouped(records[..|records| - 1], address, item), address(last), item(last))
  }

  lemma GroupedStep<R, V>(records: seq<R>, address: R -> string, item: R -> V, i: nat)
    requires i < |records|
    ensures Grouped(records[..i + 1], address, item) ==
      Push(Grouped(records[..i], address, item), address(records[i]), item(records[i]))
  {
    assert records[..i + 1][..i] == records[..i];
  }

  /** The loop every grouping runs over the profile's records. */
  method GroupByMarket<R, V>(records: seq<R>, address: R -> string, item: R -> V) returns (groups: JsMap<string, seq<V>>)
    ensures groups == Grouped(records, address, item)
  {
    groups := Empty();
    var i := 0;
    while i < |records|
      invariant 0 <= i <= |records|
      invariant groups == Grouped(records[..i], address, item)
    {
      GroupedStep(records, address, item, i);
      var record := records[i];
      var existing := Get(groups, address(record));
      if existing.Some? {
        var list := existing.value + [item(record)];
        groups := Set(groups, address(record), list);
      } else {
        groups := Set(groups, address(record), [item(record)]);
      }
      i := i + 1;
    }
    assert records[..i] == records;
  }

  /** The records of one market. */
  function AtMarket<R>(address: R -> string, k: string): R -> bool
  {
    (r: R) => address(r) == k
  }

  /** Each market's list holds exactly its records' entries, in record order;
      a market no record names has no list. */
  lemma {:induction false} GroupedLists<R, V>(records: seq<R>, address: R -> string, item: R -> V, k: string)
    ensures var matching := Filter(records, AtMarket(address, k));
      Get(Grouped(records, address, item), k) == if matching == [] then None else Some(MapSeq(matching, item))
  {
    if records != [] {
      var p := AtMarket(address, k);
      var n := |records| - 1;
      var init := records[..n];
      var last := records[n];
      assert records == init + [last];
      FilterAppend(init, [last], p);
      GroupedLists(init, address, item, k);
      var before := Filter(init, p);
      var m := Grouped(init, address, item);
      var r := Push(m, address(last), item(last));
      assert Grouped(records, address, item) == r;
      if address(last) == k {
        assert Filter([last], p) == [last];
        var matching := before + [last];
        assert Filter(records, p) == matching;
        assert MapSeq(matching, item) == MapSeq(before, item) + [item(last)];
        if before == [] {
          assert k !in m.entries;
          assert r.entries[k] == [item(last)];
          assert MapSeq(before, item) == [];
        } else {
          assert m.entries[k] == MapSeq(before, item);
          assert r.entries[k] == m.entries[k] + [item(last)];
        }
        assert r.entries[k] == MapSeq(matching, item);
        assert Get(r, k) == Some(MapSeq(matching, item));
      } else {
        assert Filter([last], p) == [];
        assert Filter(records, p) == before;
        assert Get(r, k) == Get(m, k);
      }
    }
  }

  /** The market addresses of the records, in record order. */
  function Addresses<R>(records: seq<R>, address: R -> string): (ks: seq<string>)
    ensures |ks| == |records|
    ensures forall i :: 0 <= i < |records| ==> ks[i] == address(records[i])
  {
    MapSeq(records, address)
  }

  lemma {:induction false} GroupedValid<R, V>(records: seq<R>, address: R -> string, item: R -> V)
    ensures Valid(Grouped(records, address, item))
  {
    if records != [] {
      var n := |records| - 1;
      GroupedValid(records[..n], address, item);
      var m := Grouped(records[..n], address, item);
      var existing := Get(m, address(records[n]));
      if existing.Some? {
        SetValid(m, address(records[n]), existing.value + [item(records[n])]);
      } else {
        SetValid(m, address(records[n]), [item(records[n])]);
      }
    }
  }

  /** The markets are listed in the order they first occur. */
  lemma {:induction false} GroupedKeyOrder<R, V>(records: seq<R>, address: R -> string, item: R -> V)
    ensures Grouped(records, address, item).keys == FirstOccurrences(Addresses(records, address))
  {
    if records != [] {
      var n := |records| - 1;
      GroupedKeyOrder(records[..n], address, item);
      GroupedValid(records[..n], address, item);
      KeysCoverEntries(Grouped(records[..n], address, item));
      assert Addresses(records, address)[..n] == Addresses(records[..n], address);
    }
  }

  /** The number of entries over the listed keys. */
  function TotalLength<V>(keys: seq<string>, entries: map<string, seq<V>>): nat
  {
    if keys == [] then 0
    else
      var k := keys[|keys| - 1];
      TotalLength(keys[..|keys| - 1], entries) + (if k in entries then |entries[k]| else 0)
  }

  lemma {:induction false} TotalLengthUnchanged<V>(keys: seq<string>, entries: map<string, seq<V>>, k: string, list: seq<V>)
    requires k !in keys
    ensures TotalLength(keys, entries[k := list]) == TotalLength(keys, entries)
  {
    if keys != [] {
      TotalLengthUnchanged(keys[..|keys| - 1], entries, k, list);
    }
  }

  lemma {:induction false} TotalLengthUpdate<V>(keys: seq<string>, entries: map<string, seq<V>>, k: string, list: seq<V>)
    requires forall i, j :: 0 <= i < j < |keys| ==> keys[i] != keys[j]
    requires k in keys && k in entries
    ensures TotalLength(keys, entries[k := list]) + |entries[k]| == TotalLength(keys, entries) + |list|
  {
    var n := |keys| - 1;
    if keys[n] == k {
      assert k !in keys[..n];
      TotalLengthUnchanged(keys[..n], entries, k, list);
    } else {
      assert k in keys[..n];
      TotalLengthUpdate(keys[..n], entries, k, list);
    }
  }

  /** Nothing is dropped or duplicated: the lists hold as many entries as
      there are records. */
  lemma {:induction false} GroupedTotal<R, V>(records: seq<R>, address: R -> string, item: R -> V)
    ensures var g := Grouped(records, address, item); TotalLength(g.keys, g.entries) == |records|
  {
    if records != [] {
      var n := |records| - 1;
      var m := Grouped(records[..n], address, item);
      var k := address(records[n]);
      GroupedTotal(records[..n], address, item);
      GroupedValid(records[..n], address, item);
      KeysCoverEntries(m);
      if k in m.entries {
        TotalLengthUpdate(m.keys, m.entries, k, m.entries[k] + [item(records[n])]);
      } else {
        assert k !in m.keys;
        TotalLengthUnchanged(m.keys, m.entries, k, [item(records[n])]);
        assert (m.keys + [k])[..|m.keys|] == m.keys;
      }
    }
  }

  /** `extractMintsProfileData`: each mint's tx under its market. */
  method ExtractMints(profile: Option<UserProfile>) returns (groups: JsMap<string, seq<Tx>>)
    ensures profile.None? ==> groups == Empty()
    ensures profile.Some? ==> groups == Grouped(profile.value.mints, (m: Mint) => m.market.address, (m: Mint) => m.tx)
  {
    if profile.None? {
      groups := Empty();
    } else {
      groups := GroupByMarket(profile.value.mints, (m: Mint) => m.market.address, (m: Mint) => m.tx);
    }
  }

  /** `extractTradesProfileData`: each trade's details under its market. */
  method ExtractTrades(profile: Option<UserProfile>) returns (groups: JsMap<string, seq<TradeInfo>>)
    ensures profile.None? ==> groups == Empty()
    ensures profile.Some? ==> groups == Grouped(profile.value.trades, (t: Trade) => t.market.address, (t: Trade) => t.trade)
  {
    if profile.None? {
      groups := Empty();
    } else {
      groups := GroupByMarket(profile.value.trades, (t: Trade) => t.market.address, (t: Trade) => t.trade);
    }
  }

  /** `extractExercisesProfileData`: each exercise's tx under its market. */
  method ExtractExercises(profile: Option<UserProfile>) returns (groups: JsMap<string, seq<Tx>>)
    ensures profile.None? ==> groups == Empty()
    ensures profile.Some? ==> groups == Grouped(profile.value.excercises, (e: Exercise) => e.market.address, (e: Exercise) => e.tx)
  {
    if profile.None? {
      groups := Empty();
    } else {
      groups := GroupByMarket(profile.value.excercises, (e: Exercise) => e.market.address, (e: Exercise) => e.tx);
    }
  }

  /** `extractUnclaimedProfileData`: each unclaimed record itself under its
      market. */
  method ExtractUnclaimed(profile: Option<UserProfile>) returns (groups: JsMap<string, seq<Unclaimed>>)
    ensures profile.None? ==> groups == Empty()
    ensures profile.Some? ==> groups == Grouped(profile.value.unclaimed, (u: Unclaimed) => u.market.address, (u: Unclaimed) => u)
  {
    if profile.None? {
      groups := Empty();
    } else {
      groups := GroupByMarket(profile.value.unclaimed, (u: Unclaimed) => u.market.address, (u: Unclaimed) => u);
    }
  }
}
