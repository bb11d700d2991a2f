/** The market catalog's two indexes (src/enrichment.rs). */
module Catalog {
  import opened Basics

  datatype Market = Market(marketId: nat, conditionId: Bytes, tokenIds: seq<Bytes>, tagIds: seq<nat>, category: nat, betType: nat, negRisk: bool)

  datatype Indexes = Indexes(byCondition: map<Bytes, Market>, marketToCondition: map<nat, Bytes>, maxMarketId: nat)

  function Upsert(x: Indexes, m: Market): Indexes {
    if m.conditionId in x.byCondition && x.byCondition[m.conditionId] == m then x
    else
      var moved := m.marketId in x.marketToCondition && x.marketToCondition[m.marketId] != m.conditionId;
      var kept := if moved then x.byCondition - {x.marketToCondition[m.marketId]} else x.byCondition;
      Indexes(kept[m.conditionId := m], x.marketToCondition[m.marketId := m.conditionId], Max(x.maxMarketId, m.marketId))
  }

  function GetByMarketId(x: Indexes, id: nat): Option<Market> {
    if id in x.marketToCondition && x.marketToCondition[id] in x.byCondition
    then Some(x.byCondition[x.marketToCondition[id]]) else None
  }

  function Get(x: Indexes, conditionId: Bytes): Option<Market> {
    if conditionId in x.byCondition then Some(x.byCondition[conditionId]) else None
  }

  // The market id first; the derived condition id only as a fallback.
  function Resolve(x: Indexes, marketId: Option<nat>, derived: Bytes): Option<Market> {
    var hit := if marketId.Some? then GetByMarketId(x, marketId.value) else None;
    if hit.Some? then hit else Get(x, derived)
  }

  // The two indexes are each other's inverse.
  ghost predicate Inverse(x: Indexes) {
    && (forall id :: id in x.marketToCondition ==>
          && x.marketToCondition[id] in x.byCondition
          && x.byCondition[x.marketToCondition[id]].marketId == id)
    && (forall c :: c in x.byCondition ==>
          && x.byCondition[c].conditionId == c
          && x.byCondition[c].marketId in x.marketToCondition
          && x.marketToCondition[x.byCondition[c].marketId] == c)
  }

  // `m` does not take a condition id that another market holds.
  predicate Free(x: Indexes, m: Market) {
    m.conditionId in x.byCondition ==> x.byCondition[m.conditionId].marketId == m.marketId
  }

  function UpsertAll(ms: seq<Market>): Indexes {
    if ms == [] then Indexes(map[], map[], 0) else Upsert(UpsertAll(ms[..|ms| - 1]), ms[|ms| - 1])
  }

  ghost predicate AllFree(ms: seq<Market>) {
    forall i :: 0 <= i < |ms| ==> Free(UpsertAll(ms[..i]), ms[i])
  }

  // The latest row for a market id.
  function Latest(ms: seq<Market>, id: nat): Option<Market> {
    if ms == [] then None
    else if ms[|ms| - 1].marketId == id then Some(ms[|ms| - 1])
    else Latest(ms[..|ms| - 1], id)
  }

  function Largest(ms: seq<Market>): nat {
    if ms == [] then 0 else Max(Largest(ms[..|ms| - 1]), ms[|ms| - 1].marketId)
  }

  // An upsert keeps the indexes inverse exactly when it takes no condition id
  // from another market.
  lemma UpsertKeepsInverseIff(x: Indexes, m: Market)
    requires Inverse(x)
    ensures Inverse(Upsert(x, m)) <==> Free(x, m)
  {
    var y := Upsert(x, m);
    if !Free(x, m) {
      var other := x.byCondition[m.conditionId].marketId;
      assert other in x.marketToCondition && other in y.marketToCondition;
      assert y.marketToCondition[other] == m.conditionId && y.byCondition[m.conditionId] == m;
    }
  }

  // What an upsert should do to the lookups by market id.
  ghost predicate LookupsFollow(x: Indexes, m: Market) {
    forall id :: GetByMarketId(Upsert(x, m), id) == if id == m.marketId then Some(m) else GetByMarketId(x, id)
  }

  // It does so exactly when it takes no condition id from another market.
  lemma UpsertLookupsIff(x: Indexes, m: Market)
    requires Inverse(x)
    ensures LookupsFollow(x, m) <==> Free(x, m)
  {
    if !Free(x, m) {
      var other := x.byCondition[m.conditionId].marketId;
      assert GetByMarketId(Upsert(x, m), other) == Some(m);
      assert GetByMarketId(x, other) == Some(x.byCondition[m.conditionId]);
    }
  }

  // A condition id that a market has left finds nothing.
  lemma LeftConditionIsGone(x: Indexes, m: Market)
    requires m.marketId in x.marketToCondition && x.marketToCondition[m.marketId] != m.conditionId
    requires m.conditionId in x.byCondition ==> x.byCondition[m.conditionId] != m
    ensures Get(Upsert(x, m), x.marketToCondition[m.marketId]) == None
  {
  }

  // Market 2 takes over market 1's condition id, and from then on market 1 is
  // found as market 2.
  lemma TakenConditionMisleads(conditionId: Bytes)
    ensures var one := Market(1, conditionId, [], [], 0, 0, false);
            var two := one.(marketId := 2);
            GetByMarketId(UpsertAll([one]), 1) == Some(one) && GetByMarketId(UpsertAll([one, two]), 1) == Some(two)
  {
    var one := Market(1, conditionId, [], [], 0, 0, false);
    assert [one][..0] == [] && [one, one.(marketId := 2)][..1] == [one];
  }

  // For every run in which no market takes a condition id another one holds:
  // the indexes are inverse, a lookup by market id is the latest row upserted
  // for it, and the maximum is the largest id seen.
  lemma {:induction false} RunKeepsCatalog(ms: seq<Market>)
    requires AllFree(ms)
    ensures Inverse(UpsertAll(ms))
    ensures forall id :: GetByMarketId(UpsertAll(ms), id) == Latest(ms, id)
    ensures UpsertAll(ms).maxMarketId == Largest(ms)
  {
    if ms != [] {
      var n := |ms| - 1;
      var before, m := ms[..n], ms[n];
      assert forall i :: 0 <= i < n ==> before[..i] == ms[..i];
      RunKeepsCatalog(before);
      var x := UpsertAll(before);
      UpsertKeepsInverseIff(x, m);
      UpsertLookupsIff(x, m);
      SeenIsAtMostLargest(before, m);
    }
  }

  // What an event is enriched with after such a run: the latest row of the
  // market it names, and only for a market never seen the latest row that holds
  // the condition id derived from the event, if there is one.
  lemma ResolvesLatest(ms: seq<Market>, marketId: Option<nat>, derived: Bytes)
    requires AllFree(ms)
    ensures var hit := Resolve(UpsertAll(ms), marketId, derived);
            if marketId.Some? && Latest(ms, marketId.value).Some? then hit == Latest(ms, marketId.value)
            else forall m :: hit == Some(m) <==> m.conditionId == derived && Latest(ms, m.marketId) == Some(m)
  {
    RunKeepsCatalog(ms);
    var x := UpsertAll(ms);
    forall m ensures Get(x, derived) == Some(m) <==> m.conditionId == derived && Latest(ms, m.marketId) == Some(m) {
      assert GetByMarketId(x, m.marketId) == Latest(ms, m.marketId);
    }
  }

  // An unchanged row returns early; its id was counted when it first came.
  lemma {:induction false} SeenIsAtMostLargest(ms: seq<Market>, m: Market)
    ensures m.conditionId in UpsertAll(ms).byCondition && UpsertAll(ms).byCondition[m.conditionId] == m ==>
              m.marketId <= Largest(ms)
  {
    if ms != [] {
      SeenIsAtMostLargest(ms[..|ms| - 1], m);
    }
  }

  class MarketCatalog {
    var byCondition: map<Bytes, Market>
    var marketToCondition: map<nat, Bytes>
    var maxMarketId: nat

    ghost function Model(): Indexes
      reads this
    {
      Indexes(byCondition, marketToCondition, maxMarketId)
    }

    constructor ()
      ensures Model() == Indexes(map[], map[], 0)
    {
      byCondition, marketToCondition, maxMarketId := map[], map[], 0;
    }

    method UpsertRow(m: Market) returns (changed: bool)
      modifies this
      ensures Model() == Upsert(old(Model()), m)
      ensures changed == !(m.conditionId in old(byCondition) && old(byCondition)[m.conditionId] == m)
    {
      if m.conditionId in byCondition && byCondition[m.conditionId] == m {
        return false;
      }
      maxMarketId := if maxMarketId >= m.marketId then maxMarketId else m.marketId;
      var known := m.marketId in marketToCondition;
      var previous := if known then marketToCondition[m.marketId] else m.conditionId;
      marketToCondition := marketToCondition[m.marketId := m.conditionId];
      if known && previous != m.conditionId {
        byCondition := byCondition - {previous};
      }
      byCondition := byCondition[m.conditionId := m];
      changed := true;
    }
  }
}
