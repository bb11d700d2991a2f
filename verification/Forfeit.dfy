/** The forfeit blocklist (src/forfeit.rs): a grow-only list replayed from the
    feed, and the index of condition ids the hot path looks up. */
module Forfeit {
  import opened Basics
  import opened Hex
  import opened Sorting

  const ID_LEN := 32

  datatype LookupStatus = Unspecified | Matched | NotFound | Failed

  datatype FeedMarket = FeedMarket(conditionId: Bytes, sportsMarketType: string, gameNumber: nat)

  datatype FeedEvent = FeedEvent(sequence: nat, matchId: nat, game: nat, status: LookupStatus, slug: string,
                                 conditionIds: seq<Bytes>, markets: seq<FeedMarket>)

  datatype BlockedMarket = BlockedMarket(conditionId: string, sportsMarketType: string, gameNumber: nat)

  datatype BlockedMatch = BlockedMatch(matchId: nat, forfeitedGames: seq<nat>, feedSequences: seq<nat>, status: LookupStatus,
                                       slug: string, markets: seq<BlockedMarket>, addedAtUs: nat, updatedAtUs: nat)

  datatype Entry = Entry(matchId: nat, addedAtUs: nat)

  // The two independently locked parts: the match list and the hot index.
  datatype List = List(matches: map<nat, BlockedMatch>, lastSequence: nat)

  type Index = map<Bytes, Entry>

  // ----- ids -----

  // The id a stored market stands for, read back from its hex text.
  function MarketId(m: BlockedMarket): Option<Bytes> {
    var b := Decode(TrimPrefixes(m.conditionId));
    if b.Some? && |b.value| == ID_LEN then b else None
  }

  function IdsOf(ms: seq<BlockedMarket>): set<Bytes> {
    set i | 0 <= i < |ms| && MarketId(ms[i]).Some? :: MarketId(ms[i]).value
  }

  function AllIds(matches: map<nat, BlockedMatch>): set<Bytes> {
    set m, id | m in matches && id in IdsOf(matches[m].markets) :: id
  }

  function MarketIds(ms: seq<FeedMarket>): set<Bytes> {
    set i | 0 <= i < |ms| && |ms[i].conditionId| == ID_LEN :: ms[i].conditionId
  }

  function ListedIds(ids: seq<Bytes>): set<Bytes> {
    set i | 0 <= i < |ids| && |ids[i]| == ID_LEN :: ids[i]
  }

  // The ids an event names, in its market details or in its id list; anything
  // that is not 32 bytes long is ignored.
  function EventIds(e: FeedEvent): set<Bytes> {
    MarketIds(e.markets) + ListedIds(e.conditionIds)
  }

  function Unknown(known: set<string>, ids: set<Bytes>): set<Bytes> {
    set id | id in ids && Prefixed(id) !in known
  }

  datatype NewMarket = NewMarket(id: Bytes, market: BlockedMarket)

  function Known(ms: seq<BlockedMarket>): set<string> {
    set i | 0 <= i < |ms| :: ms[i].conditionId
  }

  function NewIds(ns: seq<NewMarket>): set<Bytes> {
    set i | 0 <= i < |ns| :: ns[i].id
  }

  function FromMarkets(known: set<string>, ms: seq<FeedMarket>): seq<NewMarket> {
    if ms == [] then []
    else
      var m := ms[|ms| - 1];
      FromMarkets(known, ms[..|ms| - 1])
      + if |m.conditionId| == ID_LEN && Prefixed(m.conditionId) !in known
        then [NewMarket(m.conditionId, BlockedMarket(Prefixed(m.conditionId), m.sportsMarketType, m.gameNumber))]
        else []
  }

  function FromIds(known: set<string>, ns: seq<NewMarket>, ids: seq<Bytes>): seq<NewMarket> {
    if ids == [] then ns
    else
      var id, before := ids[|ids| - 1], FromIds(known, ns, ids[..|ids| - 1]);
      before
      + if |id| == ID_LEN && Prefixed(id) !in known && id !in NewIds(before)
        then [NewMarket(id, BlockedMarket(Prefixed(id), "", 0))]
        else []
  }

  function Additions(known: set<string>, e: FeedEvent): seq<NewMarket> {
    FromIds(known, FromMarkets(known, e.markets), e.conditionIds)
  }

  function MarketsOf(ns: seq<NewMarket>): seq<BlockedMarket> {
    seq(|ns|, i requires 0 <= i < |ns| => ns[i].market)
  }

  // ----- apply -----

  function AddSorted(s: seq<nat>, x: nat): seq<nat> {
    if x in s then s else Sort(s + [x])
  }

  function Opened(e: FeedEvent, now: nat): BlockedMatch {
    BlockedMatch(e.matchId, [], [], e.status, "", [], now, now)
  }

  function Before(l: List, e: FeedEvent, now: nat): BlockedMatch {
    if e.matchId in l.matches then l.matches[e.matchId] else Opened(e, now)
  }

  // The match after merging the event. The status only improves; the slug
  // follows the latest event that has one.
  function Merged(b: BlockedMatch, e: FeedEvent): BlockedMatch {
    b.(forfeitedGames := AddSorted(b.forfeitedGames, e.game),
       feedSequences := AddSorted(b.feedSequences, e.sequence),
       status := if b.status.Matched? then b.status else e.status,
       slug := if e.slug != "" then e.slug else b.slug,
       markets := b.markets + MarketsOf(Additions(Known(b.markets), e)))
  }

  predicate Changed(l: List, e: FeedEvent, now: nat) {
    e.matchId !in l.matches || Merged(Before(l, e, now), e) != Before(l, e, now)
  }

  function ApplyList(l: List, e: FeedEvent, now: nat): List {
    var b := Before(l, e, now);
    var m := Merged(b, e);
    List(l.matches[e.matchId := if Changed(l, e, now) then m.(updatedAtUs := now) else m], Max(l.lastSequence, e.sequence))
  }

  // The ids that go into the index, `or_insert`.
  function AddToIndex(index: Index, ids: set<Bytes>, entry: Entry): Index {
    map id | id in index.Keys + ids :: if id in index then index[id] else entry
  }

  function ApplyIndex(index: Index, l: List, e: FeedEvent, now: nat): Index {
    var b := Before(l, e, now);
    AddToIndex(index, NewIds(Additions(Known(b.markets), e)), Entry(e.matchId, b.addedAtUs))
  }

  // ----- expiry -----

  predicate Retained(m: BlockedMatch, ttlUs: nat, now: nat) {
    Min(m.addedAtUs + ttlUs, POW_64 - 1) > now
  }

  function PruneList(l: List, ttlUs: nat, now: nat): List {
    if ttlUs == 0 then l
    else l.(matches := map m | m in l.matches && Retained(l.matches[m], ttlUs, now) :: l.matches[m])
  }

  // A prune keeps a match until its time to live is over, or for good without
  // one; 64-bit times saturate. What it keeps it leaves alone.
  lemma PruneKeepsIff(l: List, ttlUs: nat, now: nat, m: nat)
    ensures var l' := PruneList(l, ttlUs, now);
      && (m in l'.matches <==>
            m in l.matches && (ttlUs == 0 || (now < l.matches[m].addedAtUs + ttlUs && now < 0xFFFF_FFFF_FFFF_FFFF)))
      && (m in l'.matches ==> l'.matches[m] == l.matches[m]) && l'.lastSequence == l.lastSequence
  {
  }

  // ----- the index invariant -----

  // Exactly the ids of the retained matches, each pointing at one that has it.
  ghost predicate IndexOk(index: Index, matches: map<nat, BlockedMatch>) {
    && index.Keys == AllIds(matches)
    && forall id :: id in index ==>
         index[id].matchId in matches && id in IdsOf(matches[index[id].matchId].markets)
  }

  lemma HexReadsBack(id: Bytes, kind: string, game: nat)
    requires |id| == ID_LEN
    ensures MarketId(BlockedMarket(Prefixed(id), kind, game)) == Some(id)
  {
    PrefixedReadsBack(id);
  }

  lemma IdsOfConcat(a: seq<BlockedMarket>, b: seq<BlockedMarket>)
    ensures IdsOf(a + b) == IdsOf(a) + IdsOf(b)
  {
    var c := a + b;
    forall id | id in IdsOf(a) ensures id in IdsOf(c) {
      var i :| 0 <= i < |a| && MarketId(a[i]) == Some(id);
      assert c[i] == a[i];
    }
    forall id | id in IdsOf(b) ensures id in IdsOf(c) {
      var i :| 0 <= i < |b| && MarketId(b[i]) == Some(id);
      assert c[|a| + i] == b[i];
    }
  }

  lemma KnownIsHeld(ms: seq<BlockedMarket>, id: Bytes)
    requires |id| == ID_LEN && Prefixed(id) in Known(ms)
    ensures id in IdsOf(ms)
  {
    var i :| 0 <= i < |ms| && ms[i].conditionId == Prefixed(id);
    HexReadsBack(id, ms[i].sportsMarketType, ms[i].gameNumber);
    assert MarketId(ms[i]) == Some(id);
  }

  // Every addition is stored under the text of its own id.
  ghost predicate Faithful(ns: seq<NewMarket>) {
    forall i :: 0 <= i < |ns| ==> |ns[i].id| == ID_LEN && ns[i].market.conditionId == Prefixed(ns[i].id)
  }

  lemma NewIdsSnoc(ns: seq<NewMarket>, n: NewMarket)
    ensures NewIds(ns + [n]) == NewIds(ns) + {n.id}
  {
    var all := ns + [n];
    forall id | id in NewIds(ns) ensures id in NewIds(all) {
      var i :| 0 <= i < |ns| && ns[i].id == id;
      assert all[i].id == id;
    }
    assert all[|ns|].id == n.id;
  }

  lemma MarketIdsSnoc(ms: seq<FeedMarket>, m: FeedMarket)
    ensures MarketIds(ms + [m]) == MarketIds(ms) + if |m.conditionId| == ID_LEN then {m.conditionId} else {}
  {
    var all := ms + [m];
    forall id | id in MarketIds(ms) ensures id in MarketIds(all) {
      var i :| 0 <= i < |ms| && ms[i].conditionId == id;
      assert all[i].conditionId == id;
    }
    assert all[|ms|] == m;
  }

  lemma ListedIdsSnoc(ids: seq<Bytes>, x: Bytes)
    ensures ListedIds(ids + [x]) == ListedIds(ids) + if |x| == ID_LEN then {x} else {}
  {
    var all := ids + [x];
    forall id | id in ListedIds(ids) ensures id in ListedIds(all) {
      var i :| 0 <= i < |ids| && ids[i] == id;
      assert all[i] == id;
    }
    assert all[|ids|] == x;
  }

  lemma {:induction false} FromMarketsFacts(known: set<string>, ms: seq<FeedMarket>)
    ensures Faithful(FromMarkets(known, ms))
    ensures NewIds(FromMarkets(known, ms)) == Unknown(known, MarketIds(ms))
  {
    hide Prefixed;
    if ms != [] {
      var n := |ms| - 1;
      FromMarketsFacts(known, ms[..n]);
      var m, before := ms[n], FromMarkets(known, ms[..n]);
      assert ms == ms[..n] + [m];
      MarketIdsSnoc(ms[..n], m);
      var added := NewMarket(m.conditionId, BlockedMarket(Prefixed(m.conditionId), m.sportsMarketType, m.gameNumber));
      NewIdsSnoc(before, added);
      hide NewIds, MarketIds;
      assert before + [] == before;
      assert FromMarkets(known, ms) == before
          || (FromMarkets(known, ms) == before + [added] && Prefixed(m.conditionId) !in known);
    }
  }

  lemma {:induction false} FromIdsFacts(known: set<string>, ns: seq<NewMarket>, ids: seq<Bytes>)
    requires Faithful(ns)
    ensures Faithful(FromIds(known, ns, ids))
    ensures NewIds(FromIds(known, ns, ids)) == NewIds(ns) + Unknown(known, ListedIds(ids))
  {
    hide Prefixed;
    if ids != [] {
      var n := |ids| - 1;
      FromIdsFacts(known, ns, ids[..n]);
      var id, before := ids[n], FromIds(known, ns, ids[..n]);
      assert ids == ids[..n] + [id];
      ListedIdsSnoc(ids[..n], id);
      var added := NewMarket(id, BlockedMarket(Prefixed(id), "", 0));
      NewIdsSnoc(before, added);
      hide NewIds, ListedIds;
      assert before + [] == before;
      assert FromIds(known, ns, ids) == before
          || (FromIds(known, ns, ids) == before + [added] && Prefixed(id) !in known);
    }
  }

  // A market stored for an event: an entry of its market details, as it is given
  // there, or a bare id of its id list that no detail names; in either case one the
  // match does not know yet.
  ghost predicate FromDetail(known: set<string>, ms: seq<FeedMarket>, b: BlockedMarket) {
    exists m <- ms :: |m.conditionId| == 32 && Prefixed(m.conditionId) !in known
      && b == BlockedMarket(Prefixed(m.conditionId), m.sportsMarketType, m.gameNumber)
  }

  ghost predicate FromBareId(known: set<string>, named: set<Bytes>, ids: seq<Bytes>, b: BlockedMarket) {
    exists id <- ids :: |id| == 32 && Prefixed(id) !in known && id !in named && b == BlockedMarket(Prefixed(id), "", 0)
  }

  lemma {:induction false} FromMarketsAre(known: set<string>, ms: seq<FeedMarket>, b: BlockedMarket)
    ensures b in MarketsOf(FromMarkets(known, ms)) <==> FromDetail(known, ms, b)
  {
    hide Prefixed;
    if ms != [] {
      var n := |ms| - 1;
      var m, before := ms[n], FromMarkets(known, ms[..n]);
      FromMarketsAre(known, ms[..n], b);
      assert ms == ms[..n] + [m];
      var added := NewMarket(m.conditionId, BlockedMarket(Prefixed(m.conditionId), m.sportsMarketType, m.gameNumber));
      MarketsSnoc(before, added, b);
      assert before + [] == before;
      assert m in ms;
    }
  }

  lemma MarketsSnoc(ns: seq<NewMarket>, n: NewMarket, b: BlockedMarket)
    ensures b in MarketsOf(ns + [n]) <==> b in MarketsOf(ns) || b == n.market
  {
    assert MarketsOf(ns + [n]) == MarketsOf(ns) + [n.market];
  }

  lemma {:induction false} FromIdsAre(known: set<string>, ns: seq<NewMarket>, ids: seq<Bytes>, b: BlockedMarket)
    requires Faithful(ns)
    ensures b in MarketsOf(FromIds(known, ns, ids)) <==> b in MarketsOf(ns) || FromBareId(known, NewIds(ns), ids, b)
  {
    hide Prefixed, NewIds, Faithful;
    if ids != [] {
      var n := |ids| - 1;
      var id, before := ids[n], FromIds(known, ns, ids[..n]);
      FromIdsAre(known, ns, ids[..n], b);
      assert ids == ids[..n] + [id];
      assert id in ids;
      MarketsSnoc(before, NewMarket(id, BlockedMarket(Prefixed(id), "", 0)), b);
      assert before + [] == before;
      FromIdsFacts(known, ns, ids[..n]);
      if id in NewIds(before) && id !in NewIds(ns) && |id| == 32 {
        assert id in ListedIds(ids[..n]);
        var i :| 0 <= i < n && ids[..n][i] == id;
        assert ids[..n][i] in ids[..n];
      }
    }
  }

  // What a match holds after an event: what it held, and those.
  lemma MergedMarketsAre(b: BlockedMatch, e: FeedEvent, x: BlockedMarket)
    ensures var known := Known(b.markets);
      x in Merged(b, e).markets <==>
        x in b.markets || FromDetail(known, e.markets, x) || FromBareId(known, MarketIds(e.markets), e.conditionIds, x)
  {
    var known := Known(b.markets);
    var ns := FromMarkets(known, e.markets);
    FromMarketsFacts(known, e.markets);
    FromMarketsAre(known, e.markets, x);
    FromIdsAre(known, ns, e.conditionIds, x);
    assert FromBareId(known, NewIds(ns), e.conditionIds, x) <==> FromBareId(known, MarketIds(e.markets), e.conditionIds, x);
  }

  // Exactly the event's ids that the match does not list yet are added.
  lemma AdditionsFacts(known: set<string>, e: FeedEvent)
    ensures Faithful(Additions(known, e))
    ensures NewIds(Additions(known, e)) == Unknown(known, EventIds(e))
  {
    hide Prefixed;
    FromMarketsFacts(known, e.markets);
    FromIdsFacts(known, FromMarkets(known, e.markets), e.conditionIds);
    hide NewIds, MarketIds, ListedIds;
  }

  lemma FaithfulIds(ns: seq<NewMarket>)
    requires Faithful(ns)
    ensures IdsOf(MarketsOf(ns)) == NewIds(ns)
  {
    forall i | 0 <= i < |ns| ensures MarketId(MarketsOf(ns)[i]) == Some(ns[i].id) {
      HexReadsBack(ns[i].id, ns[i].market.sportsMarketType, ns[i].market.gameNumber);
    }
  }

  // Merging an event adds exactly its ids to the match.
  lemma MergedIds(b: BlockedMatch, e: FeedEvent)
    ensures IdsOf(Merged(b, e).markets) == IdsOf(b.markets) + EventIds(e)
    ensures IdsOf(Merged(b, e).markets) == IdsOf(b.markets) + NewIds(Additions(Known(b.markets), e))
  {
    var ns := Additions(Known(b.markets), e);
    AdditionsFacts(Known(b.markets), e);
    FaithfulIds(ns);
    IdsOfConcat(b.markets, MarketsOf(ns));
    forall id | id in EventIds(e) && Prefixed(id) in Known(b.markets) ensures id in IdsOf(b.markets) {
      KnownIsHeld(b.markets, id);
    }
  }

  // ----- is an id stored once? -----

  ghost predicate Distinct(ms: seq<BlockedMarket>) {
    forall i, j :: 0 <= i < j < |ms| ==> ms[i].conditionId != ms[j].conditionId
  }

  ghost predicate DistinctIds(ns: seq<NewMarket>) {
    forall i, j :: 0 <= i < j < |ns| ==> ns[i].id != ns[j].id
  }

  // The event's market details name no new id twice.
  ghost predicate NoRepeats(known: set<string>, ms: seq<FeedMarket>) {
    forall i, j :: 0 <= i < j < |ms| && |ms[i].conditionId| == ID_LEN && ms[i].conditionId == ms[j].conditionId ==>
      Prefixed(ms[i].conditionId) in known
  }

  lemma PrefixedIsInjective(a: Bytes, b: Bytes)
    ensures Prefixed(a) == Prefixed(b) ==> a == b
  {
    PrefixedReadsBack(a);
    PrefixedReadsBack(b);
  }

  lemma DistinctSnoc(ns: seq<NewMarket>, n: NewMarket)
    ensures DistinctIds(ns + [n]) <==> DistinctIds(ns) && n.id !in NewIds(ns)
  {
    var all := ns + [n];
    if DistinctIds(all) {
      forall i | 0 <= i < |ns| ensures ns[i].id != n.id {
        assert all[i] == ns[i] && all[|ns|] == n;
      }
      forall i, j | 0 <= i < j < |ns| ensures ns[i].id != ns[j].id {
        assert all[i] == ns[i] && all[j] == ns[j];
      }
    }
    assert forall i :: 0 <= i < |ns| ==> ns[i].id in NewIds(ns);
  }

  lemma NoRepeatsSnoc(known: set<string>, ms: seq<FeedMarket>, m: FeedMarket)
    ensures NoRepeats(known, ms + [m]) <==>
      NoRepeats(known, ms) && (m.conditionId in MarketIds(ms) ==> Prefixed(m.conditionId) in known)
  {
    hide Prefixed;
    var all := ms + [m];
    assert forall i :: 0 <= i < |ms| ==> all[i] == ms[i];
    assert all[|ms|] == m;
    if m.conditionId in MarketIds(ms) {
      var i :| 0 <= i < |ms| && |ms[i].conditionId| == ID_LEN && ms[i].conditionId == m.conditionId;
      assert all[i].conditionId == all[|ms|].conditionId;
    }
  }

  lemma {:induction false} FromMarketsOnceIff(known: set<string>, ms: seq<FeedMarket>)
    ensures DistinctIds(FromMarkets(known, ms)) <==> NoRepeats(known, ms)
  {
    hide Prefixed, DistinctIds, NoRepeats, MarketIds, NewIds;
    if ms == [] {
      NothingRepeats(known);
    } else {
      var n := |ms| - 1;
      FromMarketsOnceIff(known, ms[..n]);
      var m, before := ms[n], FromMarkets(known, ms[..n]);
      assert ms == ms[..n] + [m];
      NoRepeatsSnoc(known, ms[..n], m);
      FromMarketsFacts(known, ms[..n]);
      MarketIdsAreLong(ms[..n]);
      DistinctSnoc(before, NewMarket(m.conditionId, BlockedMarket(Prefixed(m.conditionId), m.sportsMarketType, m.gameNumber)));
      assert before + [] == before;
    }
  }

  lemma NothingRepeats(known: set<string>)
    ensures NoRepeats(known, []) && DistinctIds([])
  {
  }

  lemma MarketIdsAreLong(ms: seq<FeedMarket>)
    ensures forall id <- MarketIds(ms) :: |id| == ID_LEN
  {
  }

  lemma {:induction false} FromIdsOnceIff(known: set<string>, ns: seq<NewMarket>, ids: seq<Bytes>)
    ensures DistinctIds(FromIds(known, ns, ids)) <==> DistinctIds(ns)
  {
    hide Prefixed, DistinctIds, NewIds;
    if ids != [] {
      var n := |ids| - 1;
      FromIdsOnceIff(known, ns, ids[..n]);
      var id, before := ids[n], FromIds(known, ns, ids[..n]);
      DistinctSnoc(before, NewMarket(id, BlockedMarket(Prefixed(id), "", 0)));
      assert before + [] == before;
    }
  }

  // A match keeps each id once exactly when it did so before and the event's
  // market details name no new id twice: an id is compared with what the match
  // already had and, in the plain id list, with what was just added, but the
  // details are not compared with each other.
  lemma StoredOnceIff(b: BlockedMatch, e: FeedEvent)
    ensures Distinct(Merged(b, e).markets) <==> Distinct(b.markets) && NoRepeats(Known(b.markets), e.markets)
  {
    var known := Known(b.markets);
    var ns := Additions(known, e);
    AdditionsFacts(known, e);
    FromMarketsOnceIff(known, e.markets);
    FromIdsOnceIff(known, FromMarkets(known, e.markets), e.conditionIds);
    AdditionsAreNew(known, e);
    assert DistinctIds(ns) <==> NoRepeats(known, e.markets);
    hide Prefixed, NewIds, Additions, FromMarkets, NoRepeats, DistinctIds;
    forall i, j | 0 <= i < |ns| && 0 <= j < |ns|
      ensures ns[i].market.conditionId == ns[j].market.conditionId <==> ns[i].id == ns[j].id
    {
      PrefixedIsInjective(ns[i].id, ns[j].id);
    }
    DistinctAppend(b.markets, ns);
  }

  lemma AdditionsAreNew(known: set<string>, e: FeedEvent)
    ensures forall i :: 0 <= i < |Additions(known, e)| ==> Prefixed(Additions(known, e)[i].id) !in known
  {
    AdditionsFacts(known, e);
    hide Prefixed, Additions;
    var ns := Additions(known, e);
    forall i | 0 <= i < |ns| ensures Prefixed(ns[i].id) !in known {
      assert ns[i].id in NewIds(ns);
    }
  }

  lemma DistinctAppend(ms: seq<BlockedMarket>, ns: seq<NewMarket>)
    requires forall i, j :: 0 <= i < |ns| && 0 <= j < |ns| ==>
      (ns[i].market.conditionId == ns[j].market.conditionId <==> ns[i].id == ns[j].id)
    requires forall i :: 0 <= i < |ns| ==> ns[i].market.conditionId !in Known(ms)
    ensures Distinct(ms + MarketsOf(ns)) <==> Distinct(ms) && DistinctIds(ns)
  {
    var all, n := ms + MarketsOf(ns), |ms|;
    assert forall i :: 0 <= i < n ==> all[i] == ms[i] && ms[i].conditionId in Known(ms);
    assert forall i :: 0 <= i < |ns| ==> all[n + i] == ns[i].market;
    if Distinct(all) {
      forall i, j | 0 <= i < j < |ns| ensures ns[i].id != ns[j].id {
        assert all[n + i].conditionId != all[n + j].conditionId;
      }
    }
    if Distinct(ms) && DistinctIds(ns) {
      forall i, j | 0 <= i < j < |all| ensures all[i].conditionId != all[j].conditionId {
        if i >= n {
          assert all[i] == ns[i - n].market && all[j] == ns[j - n].market;
        } else if j >= n {
          assert all[j] == ns[j - n].market;
        }
      }
    }
  }

  lemma AllIdsUpdate(matches: map<nat, BlockedMatch>, m: nat, b: BlockedMatch)
    requires m in matches ==> IdsOf(matches[m].markets) <= IdsOf(b.markets)
    ensures AllIds(matches[m := b]) == AllIds(matches) + IdsOf(b.markets)
  {
    var after := matches[m := b];
    forall id | id in AllIds(matches) ensures id in AllIds(after) {
      var j :| j in matches && id in IdsOf(matches[j].markets);
      assert j in after && id in IdsOf(after[j].markets);
    }
    forall id | id in IdsOf(b.markets) ensures id in AllIds(after) {
      assert m in after && id in IdsOf(after[m].markets);
    }
  }

  lemma IndexKeysGrow(index: Index, matches: map<nat, BlockedMatch>, m: nat, b: BlockedMatch, ids: set<Bytes>, entry: Entry)
    requires index.Keys == AllIds(matches)
    requires IdsOf(b.markets) == (if m in matches then IdsOf(matches[m].markets) else {}) + ids
    ensures AddToIndex(index, ids, entry).Keys == AllIds(matches[m := b])
  {
    AllIdsUpdate(matches, m, b);
    if m in matches {
      HeldIsInAll(matches, m);
    }
    hide IdsOf, AllIds;
    assert AddToIndex(index, ids, entry).Keys == index.Keys + ids;
  }

  lemma IndexGrows(index: Index, matches: map<nat, BlockedMatch>, m: nat, b: BlockedMatch, ids: set<Bytes>, entry: Entry)
    requires IndexOk(index, matches) && entry.matchId == m
    requires IdsOf(b.markets) == (if m in matches then IdsOf(matches[m].markets) else {}) + ids
    ensures IndexOk(AddToIndex(index, ids, entry), matches[m := b])
  {
    var index', after := AddToIndex(index, ids, entry), matches[m := b];
    IndexKeysGrow(index, matches, m, b, ids, entry);
    hide IdsOf, AllIds;
    forall id | id in index' ensures index'[id].matchId in after && id in IdsOf(after[index'[id].matchId].markets) {
      if id in index {
        assert index'[id] == index[id];
      }
    }
  }

  // After an apply the hot index again holds exactly the ids of all matches.
  lemma ApplyKeepsIndex(index: Index, l: List, e: FeedEvent, now: nat)
    requires IndexOk(index, l.matches)
    ensures IndexOk(ApplyIndex(index, l, e, now), ApplyList(l, e, now).matches)
  {
    var b := Before(l, e, now);
    MergedIds(b, e);
    NoIds();
    hide IdsOf, AllIds, NewIds, Additions, EventIds, AddSorted, Known, IndexOk, AddToIndex;
    var m := ApplyList(l, e, now).matches[e.matchId];
    IndexGrows(index, l.matches, e.matchId, m, NewIds(Additions(Known(b.markets), e)), Entry(e.matchId, b.addedAtUs));
  }

  lemma NoIds()
    ensures IdsOf([]) == {}
  {
  }

  lemma HeldIsInAll(matches: map<nat, BlockedMatch>, m: nat)
    requires m in matches
    ensures IdsOf(matches[m].markets) <= AllIds(matches)
  {
  }

  // ----- replay -----

  function GamesIn(es: set<FeedEvent>, m: nat): set<nat> {
    set e | e in es && e.matchId == m :: e.game
  }

  function SequencesIn(es: set<FeedEvent>, m: nat): set<nat> {
    set e | e in es && e.matchId == m :: e.sequence
  }

  function IdsIn(es: set<FeedEvent>, m: nat): set<Bytes> {
    set e, id | e in es && e.matchId == m && id in EventIds(e) :: id
  }

  datatype Feed = Feed(event: FeedEvent, now: nat)

  function ApplyAll(l: List, feed: seq<Feed>): List {
    if feed == [] then l
    else ApplyList(ApplyAll(l, feed[..|feed| - 1]), feed[|feed| - 1].event, feed[|feed| - 1].now)
  }

  function EventsOf(feed: seq<Feed>): set<FeedEvent> {
    set i | 0 <= i < |feed| :: feed[i].event
  }

  ghost predicate WellFormed(l: List) {
    forall m :: m in l.matches ==> StrictlySorted(l.matches[m].forfeitedGames) && StrictlySorted(l.matches[m].feedSequences)
  }

  // What a list says about one match; an unknown match says nothing.
  function GamesAt(l: List, m: nat): seq<nat> {
    if m in l.matches then l.matches[m].forfeitedGames else []
  }

  function SequencesAt(l: List, m: nat): seq<nat> {
    if m in l.matches then l.matches[m].feedSequences else []
  }

  function IdsAt(l: List, m: nat): set<Bytes> {
    if m in l.matches then IdsOf(l.matches[m].markets) else {}
  }

  ghost predicate IsHighest(n: nat, floor: nat, es: set<FeedEvent>) {
    && floor <= n && (forall e :: e in es ==> e.sequence <= n)
    && (n == floor || exists e :: e in es && e.sequence == n)
  }

  function MatchesIn(es: set<FeedEvent>): set<nat> {
    set e | e in es :: e.matchId
  }

  ghost predicate ReflectsAt(base: List, es: set<FeedEvent>, l: List, m: nat) {
    && (m in l.matches <==> m in base.matches.Keys + MatchesIn(es))
    && StrictlySorted(GamesAt(l, m)) && StrictlySorted(SequencesAt(l, m))
    && Elements(GamesAt(l, m)) == Elements(GamesAt(base, m)) + GamesIn(es, m)
    && Elements(SequencesAt(l, m)) == Elements(SequencesAt(base, m)) + SequencesIn(es, m)
    && IdsAt(l, m) == IdsAt(base, m) + IdsIn(es, m)
  }

  // `l` is what replaying exactly the events `es` onto `base` must give.
  ghost predicate Reflects(base: List, es: set<FeedEvent>, l: List) {
    (forall m :: ReflectsAt(base, es, l, m)) && IsHighest(l.lastSequence, base.lastSequence, es)
  }

  lemma AddSortedFacts(s: seq<nat>, x: nat)
    requires StrictlySorted(s)
    ensures StrictlySorted(AddSorted(s, x)) && Elements(AddSorted(s, x)) == Elements(s) + {x}
  {
    if x !in s {
      SortAddsOne(s, x);
    }
  }

  lemma EventsOfSnoc(feed: seq<Feed>, f: Feed)
    ensures EventsOf(feed + [f]) == EventsOf(feed) + {f.event}
  {
    var all := feed + [f];
    forall e | e in EventsOf(feed) ensures e in EventsOf(all) {
      var i :| 0 <= i < |feed| && feed[i].event == e;
      assert all[i].event == e;
    }
    assert all[|feed|] == f;
  }

  // What one event adds, match by match.
  lemma ApplyAt(l: List, e: FeedEvent, now: nat, m: nat)
    requires StrictlySorted(GamesAt(l, m)) && StrictlySorted(SequencesAt(l, m))
    ensures var l' := ApplyList(l, e, now);
            && (m in l'.matches <==> m in l.matches || m == e.matchId)
            && StrictlySorted(GamesAt(l', m)) && StrictlySorted(SequencesAt(l', m))
            && Elements(GamesAt(l', m)) == Elements(GamesAt(l, m)) + (if m == e.matchId then {e.game} else {})
            && Elements(SequencesAt(l', m)) == Elements(SequencesAt(l, m)) + (if m == e.matchId then {e.sequence} else {})
            && IdsAt(l', m) == IdsAt(l, m) + (if m == e.matchId then EventIds(e) else {})
  {
    if m == e.matchId {
      var b := Before(l, e, now);
      AddSortedFacts(b.forfeitedGames, e.game);
      AddSortedFacts(b.feedSequences, e.sequence);
      MergedIds(b, e);
      NoIds();
      assert Elements([]) == {};
      hide AddSorted, Additions, IdsOf, EventIds, NewIds, Known, Elements, StrictlySorted;
      var m' := ApplyList(l, e, now).matches[m];
      assert m'.forfeitedGames == AddSorted(b.forfeitedGames, e.game);
      assert m'.feedSequences == AddSorted(b.feedSequences, e.sequence);
      assert m'.markets == Merged(b, e).markets;
    }
  }

  lemma InSnoc(es: set<FeedEvent>, e: FeedEvent, m: nat)
    ensures GamesIn(es + {e}, m) == GamesIn(es, m) + (if m == e.matchId then {e.game} else {})
    ensures SequencesIn(es + {e}, m) == SequencesIn(es, m) + (if m == e.matchId then {e.sequence} else {})
    ensures IdsIn(es + {e}, m) == IdsIn(es, m) + (if m == e.matchId then EventIds(e) else {})
  {
    hide EventIds;
    var all := es + {e};
    assert e in all && forall x :: x in es ==> x in all;
    forall g | g in GamesIn(es, m) ensures g in GamesIn(all, m) {
      var x :| x in es && x.matchId == m && x.game == g;
      assert x in all;
    }
    forall q | q in SequencesIn(es, m) ensures q in SequencesIn(all, m) {
      var x :| x in es && x.matchId == m && x.sequence == q;
      assert x in all;
    }
    forall id | id in IdsIn(es, m) ensures id in IdsIn(all, m) {
      var x :| x in es && x.matchId == m && id in EventIds(x);
      assert x in all;
    }
  }

  lemma ReflectsSnoc(base: List, es: set<FeedEvent>, l: List, e: FeedEvent, now: nat)
    requires Reflects(base, es, l)
    ensures Reflects(base, es + {e}, ApplyList(l, e, now))
  {
    var l' := ApplyList(l, e, now);
    forall m ensures ReflectsAt(base, es + {e}, l', m) {
      assert ReflectsAt(base, es, l, m);
      ReflectsOneMore(base, es, l, e, now, m);
    }
    assert l'.lastSequence == Max(l.lastSequence, e.sequence);
    assert e in es + {e};
  }

  lemma ReflectsOneMore(base: List, es: set<FeedEvent>, l: List, e: FeedEvent, now: nat, m: nat)
    requires ReflectsAt(base, es, l, m)
    ensures ReflectsAt(base, es + {e}, ApplyList(l, e, now), m)
  {
    hide ApplyList, GamesAt, SequencesAt, IdsAt, GamesIn, SequencesIn, IdsIn, Elements, EventIds, StrictlySorted, MatchesIn;
    ApplyAt(l, e, now, m);
    InSnoc(es, e, m);
    MatchesSnoc(es, e);
  }

  lemma MatchesSnoc(es: set<FeedEvent>, e: FeedEvent)
    ensures MatchesIn(es + {e}) == MatchesIn(es) + {e.matchId}
  {
    forall m | m in MatchesIn(es) ensures m in MatchesIn(es + {e}) {
      var x :| x in es && x.matchId == m;
      assert x in es + {e};
    }
    assert e in es + {e};
  }

  lemma {:induction false} ReplayReflects(base: List, feed: seq<Feed>)
    requires WellFormed(base)
    ensures Reflects(base, EventsOf(feed), ApplyAll(base, feed))
  {
    hide Reflects, ApplyList;
    if feed == [] {
      NothingReplayed(base);
      assert EventsOf(feed) == {};
    } else {
      hide EventsOf;
      var n := |feed| - 1;
      ReplayReflects(base, feed[..n]);
      EventsOfSnoc(feed[..n], feed[n]);
      assert feed == feed[..n] + [feed[n]];
      ReflectsSnoc(base, EventsOf(feed[..n]), ApplyAll(base, feed[..n]), feed[n].event, feed[n].now);
    }
  }

  lemma NothingReplayed(base: List)
    requires WellFormed(base)
    ensures Reflects(base, {}, base)
  {
    forall m ensures ReflectsAt(base, {}, base, m) {
    }
  }

  // Replay does not depend on order or repetition: two feeds with the same set
  // of events give, from the same starting point, the same matches, the same
  // games and feed sequences in each, the same ids, and the same high-water
  // mark.
  lemma ReplayIsOrderIndependent(base: List, a: seq<Feed>, b: seq<Feed>)
    requires WellFormed(base) && EventsOf(a) == EventsOf(b)
    ensures var x, y := ApplyAll(base, a), ApplyAll(base, b);
            && x.matches.Keys == y.matches.Keys && x.lastSequence == y.lastSequence
            && forall m :: m in x.matches ==>
                 && x.matches[m].forfeitedGames == y.matches[m].forfeitedGames
                 && x.matches[m].feedSequences == y.matches[m].feedSequences
                 && IdsOf(x.matches[m].markets) == IdsOf(y.matches[m].markets)
  {
    ReplayReflects(base, a);
    ReplayReflects(base, b);
    hide ApplyAll, IdsOf;
    var x, y := ApplyAll(base, a), ApplyAll(base, b);
    forall m ensures m in x.matches <==> m in y.matches {
      assert ReflectsAt(base, EventsOf(a), x, m) && ReflectsAt(base, EventsOf(b), y, m);
    }
    forall m | m in x.matches
      ensures m in y.matches
      ensures x.matches[m].forfeitedGames == y.matches[m].forfeitedGames
      ensures x.matches[m].feedSequences == y.matches[m].feedSequences
      ensures IdsOf(x.matches[m].markets) == IdsOf(y.matches[m].markets)
    {
      assert ReflectsAt(base, EventsOf(a), x, m) && ReflectsAt(base, EventsOf(b), y, m);
      SortedIsUnique(GamesAt(x, m), GamesAt(y, m));
      SortedIsUnique(SequencesAt(x, m), SequencesAt(y, m));
    }
  }

  // Pushing the same event again changes nothing at all.
  lemma SecondPushIsNoChange(l: List, e: FeedEvent, now: nat, later: nat)
    ensures var l' := ApplyList(l, e, now);
            !Changed(l', e, later) && ApplyList(l', e, later) == l'
  {
    var l' := ApplyList(l, e, now);
    var b := Before(l, e, now);
    var m := l'.matches[e.matchId];
    assert e.game in AddSorted(b.forfeitedGames, e.game) by { AddSortedHas(b.forfeitedGames, e.game); }
    assert e.sequence in AddSorted(b.feedSequences, e.sequence) by { AddSortedHas(b.feedSequences, e.sequence); }
    AllKnownAfter(b, e);
    hide AddSorted, Additions, Known, NewIds;
    assert m.markets == Merged(b, e).markets;
    assert m.markets + [] == m.markets;
    assert Merged(m, e) == m by { SortedStays(b, e); }
  }

  // ----- what else a feed says of a match -----

  // When the feed first named the match.
  function FirstNamed(feed: seq<Feed>, m: nat): Option<nat> {
    if feed == [] then None
    else
      var f, before := feed[|feed| - 1], FirstNamed(feed[..|feed| - 1], m);
      if before.None? && f.event.matchId == m then Some(f.now) else before
  }

  // The status: matched from the first event on that says so, until then that of
  // the latest event.
  function StatusSaid(feed: seq<Feed>, m: nat, base: Option<LookupStatus>): Option<LookupStatus> {
    if feed == [] then base
    else
      var f, before := feed[|feed| - 1], StatusSaid(feed[..|feed| - 1], m, base);
      if f.event.matchId == m && before != Some(Matched) then Some(f.event.status) else before
  }

  // The slug of the latest event that has one.
  function SlugSaid(feed: seq<Feed>, m: nat, base: string): string {
    if feed == [] then base
    else
      var f := feed[|feed| - 1];
      if f.event.matchId == m && f.event.slug != "" then f.event.slug else SlugSaid(feed[..|feed| - 1], m, base)
  }

  lemma {:induction false} ReplayTells(base: List, feed: seq<Feed>, m: nat)
    ensures var l := ApplyAll(base, feed);
      && (m in l.matches <==> m in base.matches || FirstNamed(feed, m).Some?)
      && (m in l.matches ==>
            var b := l.matches[m];
            && Some(b.addedAtUs) == (if m in base.matches then Some(base.matches[m].addedAtUs) else FirstNamed(feed, m))
            && Some(b.status) == StatusSaid(feed, m, if m in base.matches then Some(base.matches[m].status) else None)
            && b.slug == SlugSaid(feed, m, if m in base.matches then base.matches[m].slug else ""))
      && (m !in l.matches ==> StatusSaid(feed, m, None) == None && SlugSaid(feed, m, "") == "")
  {
    hide Additions, AddSorted, MarketsOf, Known;
    if feed != [] {
      ReplayTells(base, feed[..|feed| - 1], m);
    }
  }

  // An event changes a match exactly when the match is new, or the event brings a
  // game, a sequence or an id that is not there, a status while none is matched,
  // or a slug.
  lemma ChangedIff(l: List, e: FeedEvent, now: nat)
    ensures Changed(l, e, now) <==>
      e.matchId !in l.matches ||
      var b := l.matches[e.matchId];
      || e.game !in b.forfeitedGames || e.sequence !in b.feedSequences
      || (b.status != Matched && b.status != e.status) || (e.slug != "" && e.slug != b.slug)
      || exists id :: id in EventIds(e) && Prefixed(id) !in Known(b.markets)
    ensures var l' := ApplyList(l, e, now);
      && l'.matches[e.matchId].updatedAtUs == (if Changed(l, e, now) then now else l.matches[e.matchId].updatedAtUs)
      && forall m :: m in l.matches && m != e.matchId ==> m in l'.matches && l'.matches[m] == l.matches[m]
  {
    var b := Before(l, e, now);
    AddSortedSame(b.forfeitedGames, e.game);
    AddSortedSame(b.feedSequences, e.sequence);
    AdditionsFacts(Known(b.markets), e);
    hide Additions, AddSorted, Known, EventIds;
    var ns := Additions(Known(b.markets), e);
    assert Merged(b, e).markets == b.markets <==> ns == [] by {
      assert |MarketsOf(ns)| == |ns|;
    }
    if ns == [] {
      assert NewIds(ns) == {};
      assert forall id :: id in EventIds(e) && Prefixed(id) !in Known(b.markets) ==> id in Unknown(Known(b.markets), EventIds(e));
    } else {
      assert ns[0].id in NewIds(ns);
    }
  }

  lemma AddSortedSame(s: seq<nat>, x: nat)
    ensures AddSorted(s, x) == s <==> x in s
  {
    AddSortedHas(s, x);
  }

  lemma AddSortedHas(s: seq<nat>, x: nat)
    ensures x in AddSorted(s, x) && AddSorted(AddSorted(s, x), x) == AddSorted(s, x)
  {
    if x !in s {
      SortFacts(s + [x]);
      assert x in multiset(s + [x]) && x in multiset(Sort(s + [x]));
    }
  }

  lemma SortedStays(b: BlockedMatch, e: FeedEvent)
    ensures AddSorted(Merged(b, e).forfeitedGames, e.game) == Merged(b, e).forfeitedGames
    ensures AddSorted(Merged(b, e).feedSequences, e.sequence) == Merged(b, e).feedSequences
  {
    AddSortedHas(b.forfeitedGames, e.game);
    AddSortedHas(b.feedSequences, e.sequence);
  }

  lemma AllKnownAfter(b: BlockedMatch, e: FeedEvent)
    ensures MarketsOf(Additions(Known(Merged(b, e).markets), e)) == []
  {
    var known := Known(b.markets);
    var ns := Additions(known, e);
    AdditionsFacts(known, e);
    var after := b.markets + MarketsOf(ns);
    hide Prefixed, Additions;
    forall id | id in EventIds(e) ensures Prefixed(id) in Known(after) {
      if Prefixed(id) in known {
        var i :| 0 <= i < |b.markets| && b.markets[i].conditionId == Prefixed(id);
        assert after[i] == b.markets[i];
      } else {
        assert id in NewIds(ns);
        var i :| 0 <= i < |ns| && ns[i].id == id;
        assert after[|b.markets| + i] == MarketsOf(ns)[i];
      }
    }
    AdditionsFacts(Known(after), e);
    var again := Additions(Known(after), e);
    assert again != [] ==> again[0].id in NewIds(again);
  }

  // ----- overlapping operations -----

  // `apply` runs in the feed's task and `prune` in the saver's. Each first
  // changes the list under its lock and then, separately, the index under its
  // own: `adding` and `installing` are the second halves still to come, and
  // `mergedLast` says whether the feed was the last to change the list.
  datatype Adding = Adding(ids: set<Bytes>, entry: Entry)

  datatype Shared = Shared(list: List, index: Index, adding: Option<Adding>, installing: Option<Index>, mergedLast: bool)

  datatype Step =
    | MergeEvent(event: FeedEvent, now: nat)
    | InsertIds
    | SweepList(ttlUs: nat, now: nat, built: Index)  // `built` is the index made of what is kept
    | InstallIndex

  function Added(index: Index, a: Adding): Index {
    AddToIndex(index, a.ids, a.entry)
  }

  function Brings(l: List, e: FeedEvent, now: nat): Adding {
    var b := Before(l, e, now);
    Adding(NewIds(Additions(Known(b.markets), e)), Entry(e.matchId, b.addedAtUs))
  }

  ghost predicate Enabled(c: Shared, step: Step) {
    match step
    case MergeEvent(_, _) => c.adding.None?
    case InsertIds => c.adding.Some?
    case SweepList(ttlUs, now, built) =>
      var kept := PruneList(c.list, ttlUs, now);
      c.installing.None? && (kept != c.list ==> IndexOk(built, kept.matches))
    case InstallIndex => c.installing.Some?
  }

  ghost function Next(c: Shared, step: Step): Shared
    requires Enabled(c, step)
  {
    match step
    case MergeEvent(e, now) =>
      c.(list := ApplyList(c.list, e, now), adding := Some(Brings(c.list, e, now)), mergedLast := true)
    case InsertIds => c.(index := Added(c.index, c.adding.value), adding := None)
    case SweepList(ttlUs, now, built) =>
      var kept := PruneList(c.list, ttlUs, now);
      c.(list := kept, installing := if kept == c.list then None else Some(built), mergedLast := false)
    case InstallIndex => c.(index := c.installing.value, installing := None)
  }

  ghost predicate Run(c: Shared, steps: seq<Step>, c': Shared)
    decreases |steps|
  {
    if steps == [] then c' == c else Enabled(c, steps[0]) && Run(Next(c, steps[0]), steps[1..], c')
  }

  predicate Quiet(c: Shared) {
    c.adding.None? && c.installing.None?
  }

  // The index is right, or will be once the second halves are done in the order
  // of the first ones.
  ghost predicate Sound(c: Shared) {
    match (c.adding, c.installing)
    case (None, None) => IndexOk(c.index, c.list.matches)
    case (Some(a), None) => IndexOk(Added(c.index, a), c.list.matches)
    case (None, Some(x)) => IndexOk(x, c.list.matches)
    case (Some(a), Some(x)) => if c.mergedLast then IndexOk(Added(x, a), c.list.matches) else IndexOk(x, c.list.matches)
  }

  // Not overtaking: whoever changed the list last does not go first to the
  // index, unless the new ids are in the index to be installed anyway.
  ghost predicate Safe(c: Shared, step: Step) {
    c.adding.Some? && c.installing.Some? && (if c.mergedLast then step.InsertIds? else step.InstallIndex?) ==>
      c.adding.value.ids <= c.installing.value.Keys
  }

  lemma AddedIsSameIff(x: Index, a: Adding, matches: map<nat, BlockedMatch>)
    ensures a.ids <= x.Keys ==> Added(x, a) == x
    ensures IndexOk(x, matches) && IndexOk(Added(x, a), matches) ==> a.ids <= x.Keys
  {
    hide AllIds;
    assert Added(x, a).Keys == x.Keys + a.ids;
  }

  // From a sound state, every step leads to a sound state exactly when it does
  // not overtake.
  lemma StepIsSoundIff(c: Shared, step: Step)
    requires Sound(c) && Enabled(c, step)
    ensures Sound(Next(c, step)) <==> Safe(c, step)
  {
    hide IndexOk, ApplyList, PruneList, Added, Brings;
    if c.adding.Some? && c.installing.Some? {
      AddedIsSameIff(c.installing.value, c.adding.value, c.list.matches);
    } else if step.MergeEvent? {
      MergeIsBooked(if c.installing.Some? then c.installing.value else c.index, c.list, step.event, step.now);
    }
  }

  lemma MergeIsBooked(index: Index, l: List, e: FeedEvent, now: nat)
    requires IndexOk(index, l.matches)
    ensures IndexOk(Added(index, Brings(l, e, now)), ApplyList(l, e, now).matches)
  {
    hide IndexOk, ApplyList, AddToIndex, NewIds, Additions;
    ApplyKeepsIndex(index, l, e, now);
  }

  // Every step of a run, and whether none overtakes.
  ghost predicate AllSafe(c: Shared, steps: seq<Step>)
    decreases |steps|
  {
    steps == [] || (Enabled(c, steps[0]) && Safe(c, steps[0]) && AllSafe(Next(c, steps[0]), steps[1..]))
  }

  // In every run of overlapping applies and prunes in which no step overtakes,
  // whenever neither is under way the index holds exactly the listed ids.
  lemma {:induction false} SafeRunsKeepIndex(c: Shared, steps: seq<Step>, c': Shared)
    requires Sound(c) && Run(c, steps, c') && AllSafe(c, steps)
    ensures Sound(c') && (Quiet(c') ==> IndexOk(c'.index, c'.list.matches))
    decreases |steps|
  {
    hide Next, Enabled, Safe, IndexOk;
    if steps != [] {
      StepIsSoundIff(c, steps[0]);
      SafeRunsKeepIndex(Next(c, steps[0]), steps[1..], c');
    }
  }

  // ----- the two ways it goes wrong -----

  // A prune overtaken by an apply installs an index built before it, which is
  // right exactly when the event names no id new to the retained matches.
  lemma PruneOvertakenByApply(l: List, ttlUs: nat, now: nat, built: Index, e: FeedEvent, at: nat)
    requires IndexOk(built, PruneList(l, ttlUs, now).matches)
    ensures var kept := PruneList(l, ttlUs, now);
            IndexOk(built, ApplyList(kept, e, at).matches) <==> EventIds(e) <= AllIds(kept.matches)
  {
    var kept := PruneList(l, ttlUs, now);
    IdsAfterApply(kept, e, at);
    hide IdsOf, AllIds, EventIds, ApplyList, PruneList;
    var after := ApplyList(kept, e, at).matches;
    assert AllIds(after) == AllIds(kept.matches) <==> EventIds(e) <= AllIds(kept.matches);
    forall id | id in built ensures built[id].matchId in after && id in IdsOf(after[built[id].matchId].markets) {
    }
  }

  // An apply overtaken by a prune adds its ids to the index of what the prune
  // kept, which is right exactly when they are all still listed.
  lemma ApplyOvertakenByPrune(l: List, e: FeedEvent, at: nat, ttlUs: nat, now: nat, built: Index)
    requires IndexOk(built, PruneList(ApplyList(l, e, at), ttlUs, now).matches)
    ensures var kept, brings := PruneList(ApplyList(l, e, at), ttlUs, now), Brings(l, e, at);
            IndexOk(Added(built, brings), kept.matches) <==> brings.ids <= AllIds(kept.matches)
  {
    hide ApplyList, PruneList, Brings;
    AddedIsSameIff(built, Brings(l, e, at), PruneList(ApplyList(l, e, at), ttlUs, now).matches);
  }

  const NOTHING := Shared(List(map[], 0), map[], None, None, false)

  function Sample(sequence: nat, matchId: nat, ids: seq<Bytes>): FeedEvent {
    FeedEvent(sequence, matchId, 0, Matched, "", ids, [])
  }

  lemma SampleIds(sequence: nat, matchId: nat, id: Bytes)
    requires |id| == ID_LEN
    ensures EventIds(Sample(sequence, matchId, [id])) == {id} && EventIds(Sample(sequence, matchId, [])) == {}
  {
    assert ListedIds([id]) == {id} by {
      assert [id][0] == id;
    }
  }

  lemma SampleBrings(l: List, sequence: nat, matchId: nat, id: Bytes, now: nat)
    requires |id| == ID_LEN && (matchId in l.matches ==> l.matches[matchId].markets == [])
    ensures Brings(l, Sample(sequence, matchId, [id]), now).ids == {id}
  {
    var e := Sample(sequence, matchId, [id]);
    SampleIds(sequence, matchId, id);
    AdditionsFacts({}, e);
    hide Additions, NewIds, EventIds;
    assert Known(Before(l, e, now).markets) == {};
  }

  // A match that has been listed since `added`, without any id yet.
  lemma OneMatch(added: nat) returns (c: Shared, steps: seq<Step>)
    ensures Run(NOTHING, steps, c) && Quiet(c) && c.index == map[] && AllIds(c.list.matches) == {}
    ensures c.list.matches.Keys == {1} && c.list.matches[1].addedAtUs == added && c.list.matches[1].markets == []
  {
    var e := Sample(1, 1, []);
    var m := MergeEvent(e, added);
    var a := Next(NOTHING, m);
    assert Additions({}, e) == [] by {
      AdditionsOfNothing();
    }
    c := Next(a, InsertIds);
    steps := [m, InsertIds];
    assert steps[1..] == [InsertIds] && [InsertIds][1..] == [];
    NoIds();
    assert c.index == map[];
  }

  lemma AdditionsOfNothing()
    ensures Additions({}, Sample(1, 1, [])) == []
  {
  }

  lemma EmptiedList(l: List, ttlUs: nat, now: nat)
    requires l.matches.Keys == {1} && 0 < ttlUs && l.matches[1].addedAtUs + ttlUs <= now
    ensures PruneList(l, ttlUs, now).matches == map[] && PruneList(l, ttlUs, now) != l
  {
  }

  // A prune overtaken by an apply: a listed id is not in the index, so its
  // events are let through.
  lemma ListedIdIsNotBlocked(id: Bytes) returns (steps: seq<Step>, c: Shared)
    requires |id| == ID_LEN
    ensures Run(NOTHING, steps, c) && Quiet(c) && id in AllIds(c.list.matches) && id !in c.index
  {
    hide Run;
    var c0, s0 := OneMatch(0);
    EmptiedList(c0.list, 1, 1);
    var x := [SweepList(1, 1, map[]), MergeEvent(Sample(2, 2, [id]), 1), InsertIds, InstallIndex];
    var c1 := Next(c0, x[0]);
    var c2 := Next(c1, x[1]);
    SampleIds(2, 2, id);
    IdsAfterApply(c1.list, x[1].event, 1);
    assert AllIds(map[]) == {};
    hide ApplyList, AllIds, EventIds, Brings;
    steps, c := Then(NOTHING, s0, c0, x[0]);
    steps, c := Then(NOTHING, steps, c, x[1]);
    steps, c := Then(NOTHING, steps, c, x[2]);
    steps, c := Then(NOTHING, steps, c, x[3]);
  }

  // An apply overtaken by a prune: an id is in the index that no match lists.
  lemma UnlistedIdIsBlocked(id: Bytes) returns (steps: seq<Step>, c: Shared)
    requires |id| == ID_LEN
    ensures Run(NOTHING, steps, c) && Quiet(c) && id !in AllIds(c.list.matches) && id in c.index
  {
    hide Run;
    var c0, s0 := OneMatch(0);
    var x := [MergeEvent(Sample(2, 1, [id]), 1), SweepList(1, 1, map[]), InstallIndex, InsertIds];
    SampleBrings(c0.list, 2, 1, id, 1);
    var c1 := Next(c0, x[0]);
    assert c1.list.matches.Keys == {1} && c1.list.matches[1].addedAtUs == 0;
    EmptiedList(c1.list, 1, 1);
    assert AllIds(map[]) == {};
    hide ApplyList, AllIds, EventIds, Brings;
    steps, c := Then(NOTHING, s0, c0, x[0]);
    steps, c := Then(NOTHING, steps, c, x[1]);
    steps, c := Then(NOTHING, steps, c, x[2]);
    steps, c := Then(NOTHING, steps, c, x[3]);
  }

  lemma {:induction false} Then(c: Shared, steps: seq<Step>, mid: Shared, step: Step) returns (steps': seq<Step>, c': Shared)
    requires Run(c, steps, mid) && Enabled(mid, step)
    ensures Run(c, steps', c') && c' == Next(mid, step)
  {
    hide Enabled, Next;
    steps', c' := steps + [step], Next(mid, step);
    RunSnoc(c, steps, mid, step);
  }

  lemma {:induction false} RunSnoc(c: Shared, steps: seq<Step>, mid: Shared, step: Step)
    requires Run(c, steps, mid) && Enabled(mid, step)
    ensures Run(c, steps + [step], Next(mid, step))
    decreases |steps|
  {
    hide Enabled, Next;
    if steps == [] {
      assert [step][1..] == [];
    } else {
      RunSnoc(Next(c, steps[0]), steps[1..], mid, step);
      assert (steps + [step])[1..] == steps[1..] + [step];
    }
  }

  // The ids after an apply, all together and match by match.
  lemma IdsAfterApply(l: List, e: FeedEvent, at: nat)
    ensures var after := ApplyList(l, e, at).matches;
            && AllIds(after) == AllIds(l.matches) + EventIds(e)
            && forall m :: m in l.matches ==> m in after && IdsOf(l.matches[m].markets) <= IdsOf(after[m].markets)
  {
    var b := Before(l, e, at);
    MergedIds(b, e);
    NoIds();
    hide IdsOf, AllIds, EventIds, NewIds, Additions, AddSorted, Known;
    var m := ApplyList(l, e, at).matches[e.matchId];
    IdsAfterUpdate(l.matches, e.matchId, m, EventIds(e));
  }

  lemma IdsAfterUpdate(matches: map<nat, BlockedMatch>, m: nat, b: BlockedMatch, ids: set<Bytes>)
    requires IdsOf(b.markets) == (if m in matches then IdsOf(matches[m].markets) else {}) + ids
    ensures AllIds(matches[m := b]) == AllIds(matches) + ids
  {
    AllIdsUpdate(matches, m, b);
    if m in matches {
      HeldIsInAll(matches, m);
    }
    hide IdsOf, AllIds;
  }
}

module ForfeitServer {
  import opened Basics
  import opened Hex
  import opened Sorting
  import opened Forfeit

  const SNAPSHOT_VERSION := 1

  // The match list of a snapshot file; a repeated match id keeps the last.
  function MatchesOf(ms: seq<BlockedMatch>): map<nat, BlockedMatch> {
    if ms == [] then map[] else MatchesOf(ms[..|ms| - 1])[ms[|ms| - 1].matchId := ms[|ms| - 1]]
  }

  lemma IdsOfSnoc(ms: seq<BlockedMarket>, m: BlockedMarket)
    ensures IdsOf(ms + [m]) == IdsOf(ms) + if MarketId(m).Some? then {MarketId(m).value} else {}
  {
    IdsOfConcat(ms, [m]);
    assert IdsOf([m]) == if MarketId(m).Some? then {MarketId(m).value} else {} by {
      assert [m][0] == m;
    }
  }

  // The ids of one match go into the index unless an earlier match put them there.
  method AddMatch(before: Index, m: BlockedMatch) returns (index: Index)
    ensures index == AddToIndex(before, IdsOf(m.markets), Entry(m.matchId, m.addedAtUs))
  {
    hide AddToIndex, IdsOf, MarketId;
    index := before;
    var entry := Entry(m.matchId, m.addedAtUs);
    NoIds();
    NothingAdded(before, entry);
    var i := 0;
    assert m.markets[..0] == [];
    while i < |m.markets|
      invariant 0 <= i <= |m.markets|
      invariant index == AddToIndex(before, IdsOf(m.markets[..i]), entry)
    {
      var done, id := IdsOf(m.markets[..i]), MarketId(m.markets[i]);
      IdsOfSnoc(m.markets[..i], m.markets[i]);
      assert m.markets[..i + 1] == m.markets[..i] + [m.markets[i]];
      if id.Some? {
        AddOneMore(before, done, id.value, entry);
        if id.value !in index {
          index := index[id.value := entry];
        }
      } else {
        assert done + {} == done;
      }
      i := i + 1;
    }
    assert m.markets[..|m.markets|] == m.markets;
  }

  // Every id is entered for the match of least id that lists it, with the time
  // that match was learned.
  ghost predicate LeastFirst(index: Index, matches: map<nat, BlockedMatch>) {
    forall id :: id in index ==>
      && index[id].matchId in matches && index[id].addedAtUs == matches[index[id].matchId].addedAtUs
      && forall m :: m in matches && id in IdsOf(matches[m].markets) ==> index[id].matchId <= m
  }

  lemma LeastStays(index: Index, done: map<nat, BlockedMatch>, m: nat, b: BlockedMatch)
    requires IndexOk(index, done) && LeastFirst(index, done) && forall x :: x in done ==> x < m
    ensures LeastFirst(AddToIndex(index, IdsOf(b.markets), Entry(m, b.addedAtUs)), done[m := b])
  {
    hide IdsOf, AllIds;
    var index', done' := AddToIndex(index, IdsOf(b.markets), Entry(m, b.addedAtUs)), done[m := b];
    forall id, x | id in index' && x in done' && id in IdsOf(done'[x].markets) ensures index'[id].matchId <= x {
      if x in done {
        HeldIsInAll(done, x);
      }
    }
  }

  method Least(s: set<nat>) returns (m: nat)
    requires s != {}
    ensures m in s && forall x :: x in s ==> m <= x
  {
    m :| m in s;
    var rest := s;
    while rest != {}
      invariant m in s && rest <= s && forall x :: x in s && x !in rest ==> m <= x
      decreases rest
    {
      var x :| x in rest;
      if x < m {
        m := x;
      }
      rest := rest - {x};
    }
  }

  // The matches are visited by rising id, and the first to list an id keeps it.
  method BuildIndex(matches: map<nat, BlockedMatch>) returns (index: Index)
    requires forall m :: m in matches ==> matches[m].matchId == m
    ensures IndexOk(index, matches) && LeastFirst(index, matches)
  {
    hide LeastFirst, IndexOk, AddToIndex, IdsOf, AllIds;
    index := map[];
    var left := matches.Keys;
    ghost var done: map<nat, BlockedMatch> := map[];
    NothingEntered();
    NoIds();
    while left != {}
      invariant left <= matches.Keys && done == map m | m in matches && m !in left :: matches[m]
      invariant forall x, m :: x in done && m in left ==> x < m
      invariant IndexOk(index, done) && LeastFirst(index, done)
      decreases left
    {
      var m := Least(left);
      assert m !in done;
      var before := index;
      index := AddMatch(before, matches[m]);
      IndexGrows(before, done, m, matches[m], IdsOf(matches[m].markets), Entry(m, matches[m].addedAtUs));
      LeastStays(before, done, m, matches[m]);
      left := left - {m};
      done := done[m := matches[m]];
    }
    assert done == matches;
  }

  lemma NothingEntered()
    ensures IndexOk(map[], map[]) && LeastFirst(map[], map[])
  {
    assert AllIds(map[]) == {};
  }

  class ForfeitBlocklist {
    const enabled: bool
    const ttlUs: nat
    var matches: map<nat, BlockedMatch>
    var lastSequence: nat
    var index: Index
    // What the two tasks still have to do to the index.
    ghost var adding: Option<Adding>
    ghost var installing: Option<Index>
    ghost var mergedLast: bool

    ghost predicate Keyed()
      reads this
    {
      forall m :: m in matches ==> matches[m].matchId == m
    }

    ghost predicate Valid()
      reads this
    {
      Sound(Model()) && Keyed()
    }

    ghost function Model(): Shared
      reads this
    {
      Shared(List(matches, lastSequence), index, adding, installing, mergedLast)
    }

    constructor (enabled: bool, ttlUs: nat)
      ensures Valid() && Model() == NOTHING && this.enabled == enabled && this.ttlUs == ttlUs
    {
      this.enabled, this.ttlUs := enabled, ttlUs;
      matches, lastSequence, index := map[], 0, map[];
      adding, installing, mergedLast := None, None, false;
    }

    // The hot path reads the index only. While neither task is under way, and
    // none has overtaken the other, an id is blocked exactly when a retained
    // match lists it, and the match returned is such a one.
    function Lookup(id: Bytes): (r: Option<nat>)
      reads this
      ensures r.Some? <==> enabled && id in index
      ensures Valid() && Quiet(Model()) ==> (r.Some? <==> enabled && id in AllIds(matches))
      ensures Valid() && Quiet(Model()) && r.Some? ==> r.value in matches && id in IdsOf(matches[r.value].markets)
    {
      if enabled && id in index then Some(index[id].matchId) else None
    }

    method CollectMarkets(known: set<string>, ms: seq<FeedMarket>) returns (ns: seq<NewMarket>)
      ensures ns == FromMarkets(known, ms)
    {
      ns := [];
      var i := 0;
      assert ms[..0] == [];
      while i < |ms|
        invariant 0 <= i <= |ms| && ns == FromMarkets(known, ms[..i])
      {
        var m := ms[i];
        assert ms[..i + 1][..i] == ms[..i];
        if |m.conditionId| == ID_LEN && Prefixed(m.conditionId) !in known {
          ns := ns + [NewMarket(m.conditionId, BlockedMarket(Prefixed(m.conditionId), m.sportsMarketType, m.gameNumber))];
        }
        i := i + 1;
      }
      assert ms[..|ms|] == ms;
    }

    method CollectIds(known: set<string>, before: seq<NewMarket>, ids: seq<Bytes>) returns (ns: seq<NewMarket>)
      ensures ns == FromIds(known, before, ids)
    {
      ns := before;
      var i := 0;
      assert ids[..0] == [];
      while i < |ids|
        invariant 0 <= i <= |ids| && ns == FromIds(known, before, ids[..i])
      {
        assert ids[..i + 1][..i] == ids[..i];
        if |ids[i]| == ID_LEN && Prefixed(ids[i]) !in known && ids[i] !in NewIds(ns) {
          ns := ns + [NewMarket(ids[i], BlockedMarket(Prefixed(ids[i]), "", 0))];
        }
        i := i + 1;
      }
      assert ids[..|ids|] == ids;
    }

    // The first half of `apply`, under the list's lock. Also returns what the
    // second half is to put into the index.
    method MergeUnderLock(e: FeedEvent, now: nat) returns (changed: bool, ids: set<Bytes>, entry: Entry)
      requires Valid() && adding.None?
      modifies this
      ensures Valid() && Model() == Next(old(Model()), MergeEvent(e, now))
      ensures adding == Some(Adding(ids, entry)) && changed == Changed(old(Model()).list, e, now)
    {
      StepIsSoundIff(Model(), MergeEvent(e, now));
      hide Sound, IndexOk, Known, Additions, NewIds;
      lastSequence := Max(lastSequence, e.sequence);
      var isNew := e.matchId !in matches;
      var before := if isNew then Opened(e, now) else matches[e.matchId];
      var blocked, ns := Merge(before, e);
      hide Merged;
      changed := isNew || blocked != before;
      if changed {
        blocked := blocked.(updatedAtUs := now);
      }
      matches := matches[e.matchId := blocked];
      ids, entry := NewIds(ns), Entry(e.matchId, before.addedAtUs);
      adding, mergedLast := Some(Adding(ids, entry)), true;
    }

    // The second half, under the index's lock.
    method InsertUnderLock(ids: set<Bytes>, entry: Entry)
      requires Valid() && adding == Some(Adding(ids, entry))
      modifies `index, `adding
      ensures Model() == Next(old(Model()), InsertIds)
      ensures Valid() <==> old(Safe(Model(), InsertIds))
    {
      StepIsSoundIff(Model(), InsertIds);
      hide Sound, IndexOk, AddToIndex;
      var before, rest := index, ids;
      NothingAdded(before, entry);
      while rest != {}
        modifies `index
        invariant rest <= ids && index == AddToIndex(before, ids - rest, entry)
        decreases rest
      {
        var id :| id in rest;
        AddOneMore(before, ids - rest, id, entry);
        if id !in index {
          index := index[id := entry];
        }
        assert ids - (rest - {id}) == (ids - rest) + {id};
        rest := rest - {id};
      }
      assert ids - {} == ids;
      adding := None;
    }

    // `apply` when no prune is under way: the index again holds exactly the
    // listed ids.
    method Apply(e: FeedEvent, now: nat) returns (changed: bool)
      requires Valid() && Quiet(Model())
      modifies this
      ensures Valid() && Quiet(Model())
      ensures changed == Changed(old(Model()).list, e, now)
      ensures Model().list == ApplyList(old(Model()).list, e, now)
      ensures IndexOk(index, matches)
    {
      hide IndexOk, ApplyList;
      var ids, entry;
      changed, ids, entry := MergeUnderLock(e, now);
      InsertUnderLock(ids, entry);
    }

    method Merge(before: BlockedMatch, e: FeedEvent) returns (blocked: BlockedMatch, ns: seq<NewMarket>)
      ensures blocked == Merged(before, e) && ns == Additions(Known(before.markets), e)
    {
      hide Known, FromMarkets, FromIds, NewIds, Sort;
      blocked := before;
      if e.game !in blocked.forfeitedGames {
        blocked := blocked.(forfeitedGames := Sort(blocked.forfeitedGames + [e.game]));
      }
      if e.sequence !in blocked.feedSequences {
        blocked := blocked.(feedSequences := Sort(blocked.feedSequences + [e.sequence]));
      }
      if !blocked.status.Matched? && blocked.status != e.status {
        blocked := blocked.(status := e.status);
      }
      if e.slug != "" && blocked.slug != e.slug {
        blocked := blocked.(slug := e.slug);
      }
      var known := Known(before.markets);
      ns := CollectMarkets(known, e.markets);
      ns := CollectIds(known, ns, e.conditionIds);
      blocked := blocked.(markets := blocked.markets + MarketsOf(ns));
    }

    // The first half of `prune`: drop the expired matches and, if there were
    // any, build the index of the rest, all under the list's lock.
    method SweepUnderLock(now: nat) returns (removed: nat, built: Index)
      requires Valid() && installing.None?
      modifies this
      ensures Valid() && Enabled(old(Model()), SweepList(ttlUs, now, built))
      ensures Model() == Next(old(Model()), SweepList(ttlUs, now, built))
      ensures removed == |old(matches)| - |matches| && (removed == 0 <==> installing.None?)
      ensures forall m :: m in matches <==>
                m in old(matches) && (ttlUs == 0 || (now < old(matches)[m].addedAtUs + ttlUs && now < 0xFFFF_FFFF_FFFF_FFFF))
      ensures removed > 0 ==> installing == Some(built)
    {
      hide Sound, IndexOk, LeastFirst, AllIds, IdsOf;
      ghost var before := Model();
      var kept := matches;
      if ttlUs != 0 {
        kept := map m | m in matches && Retained(matches[m], ttlUs, now) :: matches[m];
      }
      assert kept.Keys <= matches.Keys;
      SubsetSize(kept.Keys, matches.Keys);
      removed := |matches| - |kept|;
      assert removed == 0 <==> kept == matches;
      built := map[];
      if removed > 0 {
        built := BuildIndex(kept);
      }
      StepIsSoundIff(before, SweepList(ttlUs, now, built));
      matches := kept;
      mergedLast := false;
      installing := if removed > 0 then Some(built) else None;
    }

    // The second half, under the index's lock.
    method InstallUnderLock(built: Index)
      requires Valid() && installing == Some(built)
      modifies `index, `installing
      ensures Model() == Next(old(Model()), InstallIndex)
      ensures Valid() <==> old(Safe(Model(), InstallIndex))
    {
      StepIsSoundIff(Model(), InstallIndex);
      hide Sound, IndexOk;
      index := built;
      installing := None;
    }

    // `prune` when no apply is under way.
    method Prune(now: nat) returns (removed: nat)
      requires Valid() && Quiet(Model())
      modifies this
      ensures Valid() && Quiet(Model())
      ensures Model().list == PruneList(old(Model()).list, ttlUs, now)
      ensures removed == |old(matches)| - |matches|
      ensures IndexOk(index, matches)
    {
      hide IndexOk, PruneList;
      var built;
      removed, built := SweepUnderLock(now);
      if removed > 0 {
        InstallUnderLock(built);
      }
    }

    // A snapshot read back at start-up, before either task runs; one of another
    // version is ignored.
    method Load(version: nat, last: nat, ms: seq<BlockedMatch>, now: nat)
      requires Valid() && Quiet(Model())
      modifies this
      ensures Valid() && Quiet(Model()) && IndexOk(index, matches)
      ensures Model().list == if version == SNAPSHOT_VERSION then PruneList(List(MatchesOf(ms), last), ttlUs, now)
                              else old(Model()).list
    {
      if version != SNAPSHOT_VERSION {
        return;
      }
      lastSequence := last;
      KeyedById(ms);
      matches := MatchesOf(ms);
      index := BuildIndex(matches);
      hide IndexOk, PruneList;
      var _ := Prune(now);
    }
  }

  lemma NothingAdded(index: Index, entry: Entry)
    ensures AddToIndex(index, {}, entry) == index
  {
  }

  lemma AddOneMore(index: Index, ids: set<Bytes>, id: Bytes, entry: Entry)
    ensures var before := AddToIndex(index, ids, entry);
            AddToIndex(index, ids + {id}, entry) == if id in before then before else before[id := entry]
  {
  }

  // Of the matches in a snapshot with one id, the last counts.
  lemma {:induction false} LastMatchCounts(ms: seq<BlockedMatch>, m: nat)
    ensures m in MatchesOf(ms) <==> exists i :: 0 <= i < |ms| && ms[i].matchId == m
    ensures m in MatchesOf(ms) ==> exists i ::
      0 <= i < |ms| && ms[i].matchId == m && MatchesOf(ms)[m] == ms[i] && forall j :: i < j < |ms| ==> ms[j].matchId != m
  {
    if ms != [] {
      var n := |ms| - 1;
      LastMatchCounts(ms[..n], m);
      if ms[n].matchId == m {
        assert MatchesOf(ms)[m] == ms[n];
      } else if m in MatchesOf(ms[..n]) {
        var i :| 0 <= i < n && ms[..n][i].matchId == m && MatchesOf(ms[..n])[m] == ms[..n][i]
                 && forall j :: i < j < n ==> ms[..n][j].matchId != m;
        assert ms[i] == ms[..n][i] && forall j :: i < j < n ==> ms[j] == ms[..n][j];
      } else {
        assert forall i :: 0 <= i < n ==> ms[i] == ms[..n][i];
      }
    }
  }

  lemma {:induction false} KeyedById(ms: seq<BlockedMatch>)
    ensures forall m :: m in MatchesOf(ms) ==> MatchesOf(ms)[m].matchId == m
  {
    if ms != [] {
      KeyedById(ms[..|ms| - 1]);
    }
  }

  lemma {:induction false} SubsetSize(a: set<nat>, b: set<nat>)
    requires a <= b
    ensures |a| <= |b| && (|a| == |b| ==> a == b)
    decreases b
  {
    if a != {} {
      var x :| x in a;
      SubsetSize(a - {x}, b - {x});
      assert a == (a - {x}) + {x} && b == (b - {x}) + {x};
    }
  }
}
