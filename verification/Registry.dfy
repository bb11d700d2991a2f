/** The console's node registry (src/console/registry.rs): node status, manual
    and automatic release of clients, and the public node list. Ratios are
    exact here; the code computes them in f64. */
module Registry {
  import opened Basics
  import opened MapSum
  import opened StringOrder

  datatype Heartbeat = Heartbeat(nodeId: string, startedAtMs: nat, ready: bool, draining: bool, clients: nat, maxClients: nat)

  datatype Node = Node(heartbeat: Heartbeat, lastSeenMs: nat, desiredDrain: bool,
                       pendingRelease: nat, releasedTotal: nat, lastReleaseMs: nat)

  datatype Admin = Admin(disabled: bool, relay: bool)

  datatype Settings = Settings(autoBalance: bool, releaseBatch: nat, spreadPct: nat, minExcess: nat)

  datatype Status = Stale | Relay | Disabled | Draining | NotReady | Full | Serving

  datatype Inner = Inner(nodes: map<string, Node>, admin: map<string, Admin>, settings: Settings, staleAfterMs: nat)

  datatype Reason = Nothing | Manual | AutoBalance

  function AdminOf(r: Inner, id: string): Admin {
    if id in r.admin then r.admin[id] else Admin(false, false)
  }

  function StatusOf(r: Inner, node: Node, admin: Admin, now: nat): Status {
    var hb := node.heartbeat;
    if SatSub(now, node.lastSeenMs) > r.staleAfterMs then Stale
    else if admin.relay then Relay
    else if admin.disabled then Disabled
    else if node.desiredDrain || hb.draining then Draining
    else if !hb.ready then NotReady
    else if hb.clients >= hb.maxClients then Full
    else Serving
  }

  function StatusAt(r: Inner, id: string, now: nat): Status
    requires id in r.nodes
  {
    StatusOf(r, r.nodes[id], AdminOf(r, id), now)
  }

  function ServingIds(r: Inner, now: nat): set<string> {
    set id | id in r.nodes && StatusAt(r, id, now).Serving?
  }

  // Full nodes can give clients away too.
  function SheddableIds(r: Inner, now: nat): set<string> {
    set id | id in r.nodes && (StatusAt(r, id, now).Serving? || StatusAt(r, id, now).Full?)
  }

  // A node that may have clients: seen lately, neither a relay nor disabled, not
  // to be drained nor draining, and ready.
  predicate InService(r: Inner, id: string, now: nat) {
    id in r.nodes &&
    var node, admin := r.nodes[id], AdminOf(r, id);
    && now <= node.lastSeenMs + r.staleAfterMs
    && !admin.relay && !admin.disabled
    && !node.desiredDrain && !node.heartbeat.draining && node.heartbeat.ready
  }

  // Serving is being in service with room for more; a node can give clients away
  // without that.
  lemma ServingIff(r: Inner, id: string, now: nat)
    ensures id in SheddableIds(r, now) <==> InService(r, id, now)
    ensures id in ServingIds(r, now) <==>
              InService(r, id, now) && r.nodes[id].heartbeat.clients < r.nodes[id].heartbeat.maxClients
  {
  }

  function Clients(r: Inner, id: string): nat
    requires id in r.nodes
  {
    r.nodes[id].heartbeat.clients
  }

  ghost predicate IsFewest(r: Inner, ids: set<string>, n: nat) {
    && (ids == {} ==> n == 0)
    && (ids != {} ==> exists id :: id in ids && id in r.nodes && Clients(r, id) == n)
    && (forall id :: id in ids && id in r.nodes ==> n <= Clients(r, id))
  }

  // Most clients; the smaller id among equals.
  ghost predicate IsBusiest(r: Inner, ids: set<string>, b: string) {
    && b in ids && b in r.nodes
    && forall id :: id in ids && id in r.nodes && id != b ==>
         Clients(r, id) < Clients(r, b) || (Clients(r, id) == Clients(r, b) && Less(b, id))
  }

  function SpareOf(r: Inner, ids: set<string>): map<string, int> {
    map id | id in ids && id in r.nodes :: SatSub(r.nodes[id].heartbeat.maxClients, r.nodes[id].heartbeat.clients) as int
  }

  ghost function OthersSpare(r: Inner, id: string, now: nat): int {
    Sum(SpareOf(r, ServingIds(r, now) - {id}))
  }

  lemma FewestExists(r: Inner, ids: set<string>)
    requires ids <= r.nodes.Keys
    ensures exists n: nat :: IsFewest(r, ids, n)
  {
    if ids == {} {
      assert IsFewest(r, ids, 0);
    } else {
      var id :| id in ids;
      FewestExists(r, ids - {id});
      var n: nat :| IsFewest(r, ids - {id}, n);
      var m := if ids == {id} || Clients(r, id) < n then Clients(r, id) else n;
      if m == n && ids != {id} && n <= Clients(r, id) {
        var j :| j in ids - {id} && Clients(r, j) == n;
        assert j in ids;
      }
      assert forall j :: j in ids ==> j == id || j in ids - {id};
      assert IsFewest(r, ids, m);
    }
  }

  ghost function Emptiest(r: Inner, now: nat): (n: nat)
    ensures IsFewest(r, ServingIds(r, now), n)
  {
    FewestExists(r, ServingIds(r, now));
    var n: nat :| IsFewest(r, ServingIds(r, now), n);
    n
  }

  // How many clients the node should give away: what exceeds the emptiest
  // serving node by more than the spread, at most half the gap, at most what
  // the others can take. Nothing when it cannot shed.
  ghost function BalanceExcess(r: Inner, id: string, now: nat): int {
    if id !in SheddableIds(r, now) then 0
    else
      var spare := OthersSpare(r, id, now);
      if spare == 0 then 0
      else
        var me, e := Clients(r, id), Emptiest(r, now);
        Min(Min((100 * me - e * (100 + r.settings.spreadPct)) / 100, SatSub(me, e) / 2), spare)
  }

  // What a heartbeat of `id` is told to release, and why.
  ghost function Decide(r: Inner, id: string, now: nat): (nat, Reason)
    requires id in r.nodes
  {
    var batch := Max(r.settings.releaseBatch, 1);
    var node := r.nodes[id];
    if node.pendingRelease > 0 then (Min(node.pendingRelease, batch), Manual)
    else if !r.settings.autoBalance || node.desiredDrain then (0, Nothing)
    else if !IsBusiest(r, SheddableIds(r, now), id) then (0, Nothing)
    else
      var excess := BalanceExcess(r, id, now);
      if excess < r.settings.minExcess then (0, Nothing) else (Min(excess, batch), AutoBalance)
  }

  function Released(r: Inner, id: string, n: nat, reason: Reason, now: nat): Inner
    requires id in r.nodes && (reason.Manual? ==> n <= r.nodes[id].pendingRelease)
  {
    var node := r.nodes[id];
    if reason.Nothing? then r
    else r.(nodes := r.nodes[id := node.(pendingRelease := if reason.Manual? then node.pendingRelease - n else node.pendingRelease,
                                         releasedTotal := node.releasedTotal + n, lastReleaseMs := now)])
  }

  // ----- automatic balancing -----

  // The most clients a node may have and still be listed among the emptiest.
  function Ceiling(emptiest: nat, spreadPct: nat): nat {
    emptiest + emptiest * spreadPct / 100
  }

  // The released clients reconnect to `to` and both nodes report it.
  function Migrate(r: Inner, from: string, to: string, n: nat): Inner
    requires from in r.nodes && to in r.nodes && n <= Clients(r, from)
  {
    var a, b := r.nodes[from], r.nodes[to];
    r.(nodes := r.nodes[from := a.(heartbeat := a.heartbeat.(clients := a.heartbeat.clients - n))]
                       [to := b.(heartbeat := b.heartbeat.(clients := b.heartbeat.clients + n))])
  }

  function ClientsOf(r: Inner, ids: set<string>): map<string, int> {
    map id | id in ids && id in r.nodes :: Clients(r, id) as int
  }

  function SquaresOf(r: Inner, ids: set<string>): map<string, int> {
    map id | id in ids && id in r.nodes :: Clients(r, id) * Clients(r, id)
  }

  ghost function Total(r: Inner, now: nat): int {
    Sum(ClientsOf(r, SheddableIds(r, now)))
  }

  ghost function SumOfSquares(r: Inner, now: nat): int {
    Sum(SquaresOf(r, SheddableIds(r, now)))
  }

  // A node that is told to release `n` for balance has at least `2n` clients
  // more than the emptiest serving node, and the others have room for `n`.
  lemma AutoReleaseBounds(r: Inner, id: string, now: nat)
    requires id in r.nodes && Decide(r, id, now).1.AutoBalance? && Decide(r, id, now).0 > 0
    ensures id in SheddableIds(r, now) && IsBusiest(r, SheddableIds(r, now), id)
    ensures var n := Decide(r, id, now).0;
            && 2 * n <= Clients(r, id) - Emptiest(r, now)
            && n <= OthersSpare(r, id, now)
            && 100 * n <= 100 * Clients(r, id) - Emptiest(r, now) * (100 + r.settings.spreadPct)
            && n <= Max(r.settings.releaseBatch, 1)
            && (n < Max(r.settings.releaseBatch, 1) ==> n >= r.settings.minExcess)
  {
  }

  // It is the most that these allow: one more would break one of them.
  lemma AutoReleaseIsMost(r: Inner, id: string, now: nat, n: nat)
    requires id in r.nodes && Decide(r, id, now).1.AutoBalance?
    requires && 2 * n <= Clients(r, id) - Emptiest(r, now) && n <= OthersSpare(r, id, now)
             && 100 * n <= 100 * Clients(r, id) - Emptiest(r, now) * (100 + r.settings.spreadPct)
             && n <= Max(r.settings.releaseBatch, 1)
    ensures n <= Decide(r, id, now).0
  {
  }

  lemma SquareDrop(a: int, b: int, n: int)
    ensures (a - n) * (a - n) + (b + n) * (b + n) == a * a + b * b - Drop(n, a - b - n)
  {
  }

  lemma MigrateKeepsTotal(r: Inner, ids: set<string>, from: string, to: string, n: nat)
    requires {from, to} <= ids <= r.nodes.Keys && from != to && n <= Clients(r, from)
    ensures Sum(ClientsOf(Migrate(r, from, to, n), ids)) == Sum(ClientsOf(r, ids))
  {
    hide Sum;
    var a, b := Clients(r, from), Clients(r, to);
    var c := ClientsOf(r, ids);
    assert ClientsOf(Migrate(r, from, to, n), ids) == c[from := a - n][to := b + n];
    SumUpdate(c, from, a - n);
    SumUpdate(c[from := a - n], to, b + n);
  }

  lemma MigrateLowersSquares(r: Inner, ids: set<string>, from: string, to: string, n: nat)
    requires {from, to} <= ids <= r.nodes.Keys && from != to && n <= Clients(r, from)
    ensures Sum(SquaresOf(Migrate(r, from, to, n), ids))
         == Sum(SquaresOf(r, ids)) - Drop(n, Clients(r, from) - Clients(r, to) - n)
  {
    hide Sum;
    var a, b := Clients(r, from), Clients(r, to);
    var q := SquaresOf(r, ids);
    var qa, qb := (a - n) * (a - n), (b + n) * (b + n);
    assert SquaresOf(Migrate(r, from, to, n), ids) == q[from := qa][to := qb];
    SumUpdate(q, from, qa);
    SumUpdate(q[from := qa], to, qb);
    SquareDrop(a, b, n);
  }

  // Neither side of a migration changes between sheddable and not.
  lemma MigrateKeepsShape(r: Inner, from: string, to: string, n: nat, now: nat)
    requires from in SheddableIds(r, now) && to in SheddableIds(r, now) && from != to && n <= Clients(r, from)
    ensures SheddableIds(Migrate(r, from, to, n), now) == SheddableIds(r, now)
  {
    var r' := Migrate(r, from, to, n);
    forall id | id in r.nodes
      ensures id in SheddableIds(r', now) <==> id in SheddableIds(r, now)
    {
    }
  }

  lemma ServingIsSheddable(r: Inner, id: string, now: nat)
    requires id in ServingIds(r, now)
    ensures id in SheddableIds(r, now)
  {
  }

  // Moving `n` clients, whatever the loads: none is lost, the same nodes stay
  // in play, and the sum of squares changes by exactly this much.
  lemma MigrationEffect(r: Inner, from: string, to: string, n: nat, now: nat)
    requires from in SheddableIds(r, now) && to in SheddableIds(r, now) && from != to && n <= Clients(r, from)
    ensures var r' := Migrate(r, from, to, n);
            && Total(r', now) == Total(r, now)
            && SumOfSquares(r', now) == SumOfSquares(r, now) - Drop(n, Clients(r, from) - Clients(r, to) - n)
            && SheddableIds(r', now) == SheddableIds(r, now)
  {
    MigrateKeepsShape(r, from, to, n, now);
    assert SheddableIds(r, now) <= r.nodes.Keys;
    hide SheddableIds, Sum, ClientsOf, SquaresOf;
    MigrateKeepsTotal(r, SheddableIds(r, now), from, to, n);
    MigrateLowersSquares(r, SheddableIds(r, now), from, to, n);
  }

  // Everything a node's status and the balance depend on.
  ghost predicate SameStanding(r: Inner, b: Inner) {
    && b.nodes.Keys == r.nodes.Keys && b.admin == r.admin && b.staleAfterMs == r.staleAfterMs
    && forall x :: x in r.nodes ==>
         && b.nodes[x].heartbeat == r.nodes[x].heartbeat && b.nodes[x].lastSeenMs == r.nodes[x].lastSeenMs
         && b.nodes[x].desiredDrain == r.nodes[x].desiredDrain
  }

  lemma StandingDecides(r: Inner, b: Inner, now: nat)
    requires SameStanding(r, b)
    ensures SheddableIds(b, now) == SheddableIds(r, now) && ServingIds(b, now) == ServingIds(r, now)
    ensures Total(b, now) == Total(r, now) && SumOfSquares(b, now) == SumOfSquares(r, now)
  {
    hide Sum;
    forall x | x in r.nodes ensures StatusAt(b, x, now) == StatusAt(r, x, now) {}
    hide StatusOf;
    assert SheddableIds(b, now) == SheddableIds(r, now);
    assert ClientsOf(b, SheddableIds(b, now)) == ClientsOf(r, SheddableIds(r, now));
    assert SquaresOf(b, SheddableIds(b, now)) == SquaresOf(r, SheddableIds(r, now));
  }

  // Where `n` of the released clients go.
  datatype Share = Share(to: string, n: nat)

  datatype Round = Round(id: string, shares: seq<Share>)

  function Shared(shares: seq<Share>): nat {
    if shares == [] then 0 else shares[0].n + Shared(shares[1..])
  }

  // Each goes to another node.
  predicate Apart(shares: seq<Share>) {
    forall i, j :: 0 <= i < j < |shares| ==> shares[i].to != shares[j].to
  }

  // A target the public list may hand out first: any serving node within the
  // spread of the emptiest.
  ghost predicate Listed(r: Inner, id: string, now: nat) {
    id in ServingIds(r, now) && Clients(r, id) <= Ceiling(Emptiest(r, now), r.settings.spreadPct)
  }

  // An automatic release, and how its clients spread over listed targets.
  ghost predicate Releases(r: Inner, x: Round, now: nat) {
    && x.id in r.nodes && Decide(r, x.id, now).1.AutoBalance? && 0 < Decide(r, x.id, now).0 <= Clients(r, x.id)
    && Shared(x.shares) == Decide(r, x.id, now).0 && Apart(x.shares)
    && forall i :: 0 <= i < |x.shares| ==> x.shares[i].n > 0 && Listed(r, x.shares[i].to, now)
  }

  function MigrateAll(r: Inner, from: string, shares: seq<Share>): Inner
    requires from in r.nodes && Shared(shares) <= Clients(r, from)
    requires forall i :: 0 <= i < |shares| ==> shares[i].to in r.nodes
    decreases |shares|
  {
    if shares == [] then r else MigrateAll(Migrate(r, from, shares[0].to, shares[0].n), from, shares[1..])
  }

  // The node books the release, and the clients move.
  ghost function AfterRelease(r: Inner, x: Round, now: nat): Inner
    requires Releases(r, x, now)
  {
    MigrateAll(Released(r, x.id, Decide(r, x.id, now).0, AutoBalance, now), x.id, x.shares)
  }

  // A run of automatic releases, each with up-to-date heartbeats.
  ghost predicate Balances(r: Inner, rounds: seq<Round>, r': Inner, now: nat)
    decreases |rounds|
  {
    if rounds == [] then r' == r
    else Releases(r, rounds[0], now) && Balances(AfterRelease(r, rounds[0], now), rounds[1..], r', now)
  }

  // A release as a whole does not exceed the gap to any of its targets, and
  // meets it only when nothing but the excess bounds the release, the target is
  // exactly at the ceiling and the spread is not zero.
  lemma ReleaseFitsTheGap(r: Inner, x: Round, now: nat, i: nat)
    requires Releases(r, x, now) && i < |x.shares|
    ensures x.shares[i].to in r.nodes
    ensures var n, me, t, e := Decide(r, x.id, now).0, Clients(r, x.id), Clients(r, x.shares[i].to), Emptiest(r, now);
            && x.id != x.shares[i].to && n <= me - t
            && (n == me - t ==> 100 * t == e * (100 + r.settings.spreadPct) && MaySwap(r.settings))
            && (t == e ==> 2 * n <= me - t)
  {
    AutoReleaseBounds(r, x.id, now);
    assert Listed(r, x.shares[i].to, now);
    var n, me, t, e := Decide(r, x.id, now).0, Clients(r, x.id), Clients(r, x.shares[i].to), Emptiest(r, now);
    hide Decide, ServingIds, Emptiest, Shared;
    GapArithmetic(n, me, t, e, r.settings.spreadPct);
    if n == me - t {
      OnlyTheExcessBinds(r, x.id, now);
    }
  }

  lemma GapArithmetic(n: nat, me: nat, t: nat, e: nat, s: nat)
    requires t <= e + e * s / 100 && 100 * n <= 100 * me - e * (100 + s) && n > 0 && 2 * n <= me - e
    ensures n <= me - t
    ensures n == me - t ==> 100 * t == e * (100 + s) && s > 0
  {
    var es := e * s;
    assert e * (100 + s) == 100 * e + es;
    assert 100 * (es / 100) <= es;
    if s == 0 {
      assert es == 0;
    }
  }

  // A release of the whole excess is at least the least excess.
  lemma OnlyTheExcessBinds(r: Inner, id: string, now: nat)
    requires id in r.nodes && Decide(r, id, now).1.AutoBalance? && Decide(r, id, now).0 > 0
    requires 100 * Decide(r, id, now).0 == 100 * Clients(r, id) - Emptiest(r, now) * (100 + r.settings.spreadPct)
    ensures Max(r.settings.minExcess, 1) <= Max(r.settings.releaseBatch, 1)
  {
  }

  // What moving `n` clients across a gap that leaves `gap` takes off the sum of
  // squares.
  function Drop(n: int, gap: int): int {
    2 * n * gap
  }

  // The same for clients that spread: the sum of n(2(me - t) - n) over the
  // shares, less the square of their sum.
  function Gain(r: Inner, me: int, shares: seq<Share>): int
    requires forall i :: 0 <= i < |shares| ==> shares[i].to in r.nodes
  {
    if shares == [] then 0
    else Weigh(me, Clients(r, shares[0].to), shares[0].n) + Gain(r, me, shares[1..])
  }

  function Weigh(me: int, t: int, n: int): int {
    n * (2 * (me - t) - n)
  }

  function Square(n: int): int {
    n * n
  }

  function Squares(shares: seq<Share>): int {
    if shares == [] then 0 else Square(shares[0].n) + Squares(shares[1..])
  }

  // ----- a split release, share by share -----

  ghost predicate Targets(r: Inner, from: string, shares: seq<Share>, now: nat) {
    && from in SheddableIds(r, now) && Apart(shares)
    && forall i :: 0 <= i < |shares| ==> shares[i].to in SheddableIds(r, now) && shares[i].to != from
  }

  // Moving one share leaves the loads of the other targets alone.
  lemma {:induction false} GainAfterOne(r: Inner, from: string, to: string, n: nat, me: int, shares: seq<Share>)
    requires from in r.nodes && to in r.nodes && n <= Clients(r, from)
    requires forall i :: 0 <= i < |shares| ==> shares[i].to in r.nodes && shares[i].to != from && shares[i].to != to
    ensures Gain(Migrate(r, from, to, n), me - n, shares) == Gain(r, me, shares) - 2 * n * Shared(shares)
  {
    hide Weigh;
    if shares != [] {
      GainAfterOne(r, from, to, n, me, shares[1..]);
      WeighLess(me, Clients(r, shares[0].to), shares[0].n, n);
      Distribute(n, shares[0].n, Shared(shares[1..]));
    }
  }

  lemma WeighLess(me: int, t: int, k: int, n: int)
    ensures Weigh(me - n, t, k) == Weigh(me, t, k) - 2 * n * k
  {
  }

  lemma Distribute(n: int, a: int, b: int)
    ensures 2 * n * (a + b) == 2 * n * a + 2 * n * b
  {
  }

  lemma FirstAndRest(me: int, t: int, n: int, rest: int)
    ensures Drop(n, me - t - n) - 2 * n * rest - Square(rest) == Weigh(me, t, n) - Square(n + rest)
  {
  }

  lemma {:induction false} SplitEffect(r: Inner, from: string, shares: seq<Share>, now: nat)
    requires Targets(r, from, shares, now)
    requires from in r.nodes && (forall i :: 0 <= i < |shares| ==> shares[i].to in r.nodes)
    requires Shared(shares) <= Clients(r, from)
    ensures var r' := MigrateAll(r, from, shares);
            && Total(r', now) == Total(r, now) && SheddableIds(r', now) == SheddableIds(r, now)
            && SumOfSquares(r', now) == SumOfSquares(r, now) - (Gain(r, Clients(r, from), shares) - Square(Shared(shares)))
    decreases |shares|
  {
    hide Total, SumOfSquares, SheddableIds, Drop, Weigh, Square;
    if shares == [] {
      assert Square(0) == 0 by {
        SquareOfNothing();
      }
    } else {
      var x, rest := shares[0], shares[1..];
      var mid := Migrate(r, from, x.to, x.n);
      MigrationEffect(r, from, x.to, x.n, now);
      SplitEffect(mid, from, rest, now);
      GainAfterOne(r, from, x.to, x.n, Clients(r, from), rest);
      FirstAndRest(Clients(r, from), Clients(r, x.to), x.n, Shared(rest));
    }
  }

  lemma SquareOfNothing()
    ensures Square(0) == 0
  {
  }

  // Where everyone is afterwards.
  lemma {:induction false} SplitMoves(r: Inner, from: string, shares: seq<Share>, id: string)
    requires from in r.nodes && (forall i :: 0 <= i < |shares| ==> shares[i].to in r.nodes && shares[i].to != from)
    requires Shared(shares) <= Clients(r, from) && Apart(shares) && id in r.nodes
    ensures var r' := MigrateAll(r, from, shares);
            && r'.nodes.Keys == r.nodes.Keys && r'.settings == r.settings
            && (id == from ==> Clients(r', id) == Clients(r, id) - Shared(shares))
            && (forall i :: 0 <= i < |shares| && shares[i].to == id ==> Clients(r', id) == Clients(r, id) + shares[i].n)
            && (id != from && (forall i :: 0 <= i < |shares| ==> shares[i].to != id) ==> Clients(r', id) == Clients(r, id))
    decreases |shares|
  {
    if shares != [] {
      var mid, rest := Migrate(r, from, shares[0].to, shares[0].n), shares[1..];
      SplitMoves(mid, from, rest, id);
      assert forall i :: 0 < i < |shares| ==> shares[i] == rest[i - 1];
    }
  }

  // ----- how much a release takes off the sum of squares -----

  // A gap of at least `b` to every target.
  lemma {:induction false} GainBound(r: Inner, me: int, shares: seq<Share>, b: int)
    requires forall i :: 0 <= i < |shares| ==> shares[i].to in r.nodes && b <= me - Clients(r, shares[i].to)
    ensures Gain(r, me, shares) >= 2 * b * Shared(shares) - Squares(shares)
  {
    hide Weigh, Square;
    if shares != [] {
      GainBound(r, me, shares[1..], b);
      WeighBound(me, Clients(r, shares[0].to), shares[0].n, b);
      Distribute(b, shares[0].n, Shared(shares[1..]));
    }
  }

  lemma WeighBound(me: int, t: int, n: nat, b: int)
    requires b <= me - t
    ensures Weigh(me, t, n) >= 2 * b * n - Square(n)
  {
    assert n * (me - t) >= n * b;
  }

  lemma {:induction false} SquaresBound(shares: seq<Share>)
    ensures 0 <= Squares(shares) <= Square(Shared(shares))
    ensures |shares| > 1 && (forall i :: 0 <= i < |shares| ==> shares[i].n > 0) ==> Squares(shares) <= Square(Shared(shares)) - 2
  {
    if shares != [] {
      SquaresBound(shares[1..]);
      var n, m := shares[0].n, Shared(shares[1..]);
      SquareOfSum(n, m);
      if |shares| > 1 && forall i :: 0 <= i < |shares| ==> shares[i].n > 0 {
        assert shares[1].n > 0 && m > 0;
        assert n * m >= 1;
      }
    }
  }

  lemma SquareOfSum(n: nat, m: nat)
    ensures Square(n + m) == Square(n) + 2 * (n * m) + Square(m) && n * m >= 0 && Square(n) >= 0
  {
  }

  // All clients go to one node and the two loads merely trade places.
  ghost predicate Swaps(r: Inner, x: Round, now: nat) {
    && Releases(r, x, now) && |x.shares| == 1 && x.shares[0].to in r.nodes
    && Decide(r, x.id, now).0 == Clients(r, x.id) - Clients(r, x.shares[0].to)
  }

  lemma ReleaseTargets(r: Inner, x: Round, now: nat)
    requires Releases(r, x, now)
    ensures Targets(r, x.id, x.shares, now) && x.shares != []
    ensures forall i :: 0 <= i < |x.shares| ==>
              x.shares[i].to in r.nodes && Decide(r, x.id, now).0 <= Clients(r, x.id) - Clients(r, x.shares[i].to)
  {
    AutoReleaseBounds(r, x.id, now);
    hide Decide, ServingIds, SheddableIds, Emptiest, Ceiling, IsBusiest, OthersSpare, MaySwap;
    forall i | 0 <= i < |x.shares|
      ensures x.shares[i].to in r.nodes && x.shares[i].to in SheddableIds(r, now) && x.shares[i].to != x.id
      ensures Decide(r, x.id, now).0 <= Clients(r, x.id) - Clients(r, x.shares[i].to)
    {
      assert Listed(r, x.shares[i].to, now);
      ReleaseFitsTheGap(r, x, now, i);
      ServingIsSheddable(r, x.shares[i].to, now);
    }
  }

  // Shares that together do not exceed the gap to any target.
  ghost predicate FitGaps(r: Inner, me: int, shares: seq<Share>) {
    && shares != []
    && forall i :: 0 <= i < |shares| ==>
         shares[i].to in r.nodes && shares[i].n > 0 && Shared(shares) <= me - Clients(r, shares[i].to)
  }

  lemma SplitFall(r: Inner, me: int, shares: seq<Share>)
    requires FitGaps(r, me, shares) && |shares| > 1
    ensures Gain(r, me, shares) - Square(Shared(shares)) >= Square(Shared(shares)) - Squares(shares) >= 2
  {
    var n := Shared(shares);
    GainBound(r, me, shares, n);
    SquaresBound(shares);
    hide Gain, Squares, Shared;
    assert 2 * n * n == 2 * Square(n);
  }

  lemma SingleFall(r: Inner, me: int, shares: seq<Share>)
    requires FitGaps(r, me, shares) && |shares| == 1
    ensures var n, t := Shared(shares), Clients(r, shares[0].to);
            var fall := Gain(r, me, shares) - Square(n);
            && n > 0 && Squares(shares) == Square(n) && fall == Drop(n, me - t - n) >= 0
            && (fall >= 2 <==> n != me - t)
  {
    hide Weigh, Square, Drop;
    assert shares[1..] == [];
    assert Shared([]) == 0 && Squares([]) == 0 && Gain(r, me, []) == 0;
    OneShare(me, Clients(r, shares[0].to), shares[0].n);
  }

  // What a release takes off, and when it takes off nothing.
  lemma FallBounds(r: Inner, x: Round, now: nat)
    requires Releases(r, x, now) && forall i :: 0 <= i < |x.shares| ==> x.shares[i].to in r.nodes
    ensures var n := Decide(r, x.id, now).0;
            var fall := Gain(r, Clients(r, x.id), x.shares) - Square(n);
            && 0 <= Square(n) - Squares(x.shares) <= fall && (fall >= 2 <==> !Swaps(r, x, now))
  {
    ReleaseTargets(r, x, now);
    hide Decide, Targets, Listed, Gain, Squares, Square, Shared, Drop;
    var me := Clients(r, x.id);
    if |x.shares| == 1 {
      SingleFall(r, me, x.shares);
    } else {
      SplitFall(r, me, x.shares);
    }
  }

  lemma OneShare(me: int, t: int, n: nat)
    requires 0 < n <= me - t
    ensures Weigh(me, t, n) - Square(n) == Drop(n, me - t - n) >= 0
    ensures Weigh(me, t, n) - Square(n) >= 2 <==> n < me - t
    ensures n == me - t ==> Weigh(me, t, n) == Square(n)
  {
    if n < me - t {
      assert n * (me - t - n) >= 1;
    }
  }

  lemma ReleaseSums(r: Inner, x: Round, now: nat)
    requires Releases(r, x, now) && Targets(r, x.id, x.shares, now)
    requires forall i :: 0 <= i < |x.shares| ==> x.shares[i].to in r.nodes
    ensures var n, r' := Decide(r, x.id, now).0, AfterRelease(r, x, now);
            && Total(r', now) == Total(r, now) && SheddableIds(r', now) == SheddableIds(r, now)
            && SumOfSquares(r', now) == SumOfSquares(r, now) - (Gain(r, Clients(r, x.id), x.shares) - Square(n))
  {
    hide Decide, SheddableIds, Total, SumOfSquares, Listed, Square;
    var booked := Released(r, x.id, Decide(r, x.id, now).0, AutoBalance, now);
    StandingDecides(r, booked, now);
    SplitEffect(booked, x.id, x.shares, now);
    SameGain(r, booked, Clients(r, x.id), x.shares);
  }

  lemma {:induction false} SameGain(r: Inner, b: Inner, me: int, shares: seq<Share>)
    requires SameStanding(r, b) && forall i :: 0 <= i < |shares| ==> shares[i].to in r.nodes
    ensures Gain(b, me, shares) == Gain(r, me, shares)
  {
    hide Weigh;
    if shares != [] {
      SameGain(r, b, me, shares[1..]);
    }
  }

  lemma ReleaseMoves(r: Inner, x: Round, now: nat, id: string)
    requires Releases(r, x, now) && Targets(r, x.id, x.shares, now) && id in r.nodes
    requires forall i :: 0 <= i < |x.shares| ==> x.shares[i].to in r.nodes
    ensures var n, r' := Decide(r, x.id, now).0, AfterRelease(r, x, now);
            && r'.nodes.Keys == r.nodes.Keys && r'.settings == r.settings
            && (id == x.id ==> Clients(r', id) == Clients(r, id) - n)
            && (forall i :: 0 <= i < |x.shares| && x.shares[i].to == id ==> Clients(r', id) == Clients(r, id) + x.shares[i].n)
            && (id != x.id && (forall i :: 0 <= i < |x.shares| ==> x.shares[i].to != id) ==> Clients(r', id) == Clients(r, id))
  {
    hide Decide, SheddableIds, Listed;
    SplitMoves(Released(r, x.id, Decide(r, x.id, now).0, AutoBalance, now), x.id, x.shares, id);
  }

  // Each automatic release, however its clients spread over the listed targets,
  // keeps the number of clients and the nodes in play and gives each target its
  // share. The sum of squares falls by the sum of n(2(me - t) - n) over the
  // shares less the square of their sum: never less than the square less the
  // shares' squares, and by something exactly unless the release is a swap.
  lemma AutoReleaseEffect(r: Inner, x: Round, now: nat)
    requires Releases(r, x, now)
    ensures forall i :: 0 <= i < |x.shares| ==> x.shares[i].to in r.nodes && x.shares[i].to != x.id
    ensures var n, r' := Decide(r, x.id, now).0, AfterRelease(r, x, now);
            var fall := Gain(r, Clients(r, x.id), x.shares) - Square(n);
            && r'.nodes.Keys == r.nodes.Keys && r'.settings == r.settings
            && Total(r', now) == Total(r, now) && SheddableIds(r', now) == SheddableIds(r, now)
            && Clients(r', x.id) == Clients(r, x.id) - n
            && (forall i :: 0 <= i < |x.shares| ==> Clients(r', x.shares[i].to) == Clients(r, x.shares[i].to) + x.shares[i].n)
            && SumOfSquares(r', now) == SumOfSquares(r, now) - fall
            && 0 <= Square(n) - Squares(x.shares) <= fall && (fall >= 2 <==> !Swaps(r, x, now))
  {
    hide Decide, SheddableIds, Total, SumOfSquares, AfterRelease, Square, Listed, Swaps, Gain, Squares;
    ReleaseTargets(r, x, now);
    FallBounds(r, x, now);
    ReleaseSums(r, x, now);
    ReleaseMoves(r, x, now, x.id);
    forall i | 0 <= i < |x.shares|
      ensures Clients(AfterRelease(r, x, now), x.shares[i].to) == Clients(r, x.shares[i].to) + x.shares[i].n
    {
      ReleaseMoves(r, x, now, x.shares[i].to);
    }
  }

  lemma FourSquares(n: int)
    ensures 2 * (2 * n) * n == 4 * Square(n)
  {
  }

  // When every target is an emptiest node, it falls by at least 2n².
  lemma EmptiestTakesMost(r: Inner, x: Round, now: nat)
    requires Releases(r, x, now)
    requires forall i :: 0 <= i < |x.shares| ==> x.shares[i].to in r.nodes && Clients(r, x.shares[i].to) == Emptiest(r, now)
    ensures SumOfSquares(AfterRelease(r, x, now), now) <= SumOfSquares(r, now) - 2 * Square(Decide(r, x.id, now).0)
  {
    var n, me := Decide(r, x.id, now).0, Clients(r, x.id);
    ReleaseTargets(r, x, now);
    AutoReleaseBounds(r, x.id, now);
    hide Decide, SheddableIds, Total, SumOfSquares, AfterRelease, Listed, Emptiest, IsBusiest, OthersSpare, MaySwap, Targets,
         Gain, Squares, Square;
    ReleaseSums(r, x, now);
    GainBound(r, me, x.shares, 2 * n);
    SquaresBound(x.shares);
    FourSquares(n);
  }

  // The rounds of a run that do not merely swap.
  ghost function Strict(r: Inner, rounds: seq<Round>, now: nat): nat
    decreases |rounds|
  {
    if rounds == [] || !Releases(r, rounds[0], now) then 0
    else
      (if Swaps(r, rounds[0], now) then 0 else 1) + Strict(AfterRelease(r, rounds[0], now), rounds[1..], now)
  }

  lemma SumOfSquaresIsNatural(r: Inner, now: nat)
    ensures SumOfSquares(r, now) >= 0
  {
    SumNonNegative(SquaresOf(r, SheddableIds(r, now)));
  }

  // Settings under which a release can leave the loads as they were, only
  // swapped.
  predicate MaySwap(s: Settings) {
    s.spreadPct > 0 && Max(s.minExcess, 1) <= Max(s.releaseBatch, 1)
  }

  lemma SwapNeedsSettings(r: Inner, x: Round, now: nat)
    requires Swaps(r, x, now)
    ensures MaySwap(r.settings)
  {
    hide Decide, Listed, MaySwap;
    ReleaseFitsTheGap(r, x, now, 0);
  }

  // Clients are moved, not lost, and all but the swapping rounds lower the sum
  // of squares, so there are at most half of it of them. Where the settings
  // rule swaps out, this bounds every run: balancing terminates.
  lemma {:induction false} BalancingTerminates(r: Inner, rounds: seq<Round>, r': Inner, now: nat)
    requires Balances(r, rounds, r', now)
    ensures Total(r', now) == Total(r, now) && SheddableIds(r', now) == SheddableIds(r, now)
    ensures 2 * Strict(r, rounds, now) + SumOfSquares(r', now) <= SumOfSquares(r, now)
    ensures !MaySwap(r.settings) ==> Strict(r, rounds, now) == |rounds|
    ensures !MaySwap(r.settings) ==> 2 * |rounds| <= SumOfSquares(r, now)
    decreases |rounds|
  {
    hide Decide, SheddableIds, Total, SumOfSquares, AfterRelease, Releases, Gain, Squares, Square, MaySwap, Swaps;
    SumOfSquaresIsNatural(r', now);
    if rounds != [] {
      AutoReleaseEffect(r, rounds[0], now);
      if Swaps(r, rounds[0], now) {
        SwapNeedsSettings(r, rounds[0], now);
      }
      BalancingTerminates(AfterRelease(r, rounds[0], now), rounds[1..], r', now);
    }
  }

  // ----- balancing that never ends -----

  // Three nodes: an emptiest of `e` clients, one at the ceiling with `d` more,
  // and a busiest with `n` more again.
  ghost predicate Trio(r: Inner, top: string, mid: string, low: string, e: nat, d: nat, n: nat) {
    && r.nodes.Keys == {top, mid, low} && top != mid && mid != low && top != low
    && r.admin == map[] && r.staleAfterMs == 0
    && (forall id <- r.nodes ::
          var x := r.nodes[id];
          && x.lastSeenMs == 0 && !x.desiredDrain && x.pendingRelease == 0 && x.heartbeat.ready && !x.heartbeat.draining
          && x.heartbeat.maxClients > e + d + n)
    && Clients(r, low) == e && Clients(r, mid) == e + d && Clients(r, top) == e + d + n
  }

  // Settings and loads that make the busiest release exactly its lead.
  ghost predicate LeadIsReleased(s: Settings, e: nat, d: nat, n: nat) {
    && s.autoBalance && e * (100 + s.spreadPct) == 100 * (e + d)
    && 0 < n <= d && s.minExcess <= n <= Max(s.releaseBatch, 1)
  }

  function Trade(top: string, mid: string, n: nat): Round {
    Round(top, [Share(mid, n)])
  }

  lemma TrioServes(r: Inner, top: string, mid: string, low: string, e: nat, d: nat, n: nat)
    requires Trio(r, top, mid, low, e, d, n) && 0 < n
    ensures ServingIds(r, 0) == {top, mid, low} == SheddableIds(r, 0)
    ensures Emptiest(r, 0) == e
  {
    forall id | id in r.nodes ensures StatusAt(r, id, 0).Serving? {
    }
    assert ServingIds(r, 0) == {top, mid, low} == SheddableIds(r, 0);
    hide Emptiest, StatusOf, ServingIds;
    assert IsFewest(r, ServingIds(r, 0), Emptiest(r, 0));
    assert Clients(r, low) >= Emptiest(r, 0);
  }

  lemma TrioHasRoom(r: Inner, top: string, mid: string, low: string, e: nat, d: nat, n: nat)
    requires Trio(r, top, mid, low, e, d, n) && ServingIds(r, 0) == {top, mid, low}
    ensures OthersSpare(r, top, 0) >= n
  {
    var spare := SpareOf(r, ServingIds(r, 0) - {top});
    assert low in spare && spare[low] >= n;
    hide Sum;
    SumPick(spare, low);
    SumNonNegative(spare - {low});
  }

  lemma TrioDecides(r: Inner, top: string, mid: string, low: string, e: nat, d: nat, n: nat)
    requires Trio(r, top, mid, low, e, d, n) && LeadIsReleased(r.settings, e, d, n)
    ensures Decide(r, top, 0) == (n, AutoBalance)
  {
    TrioServes(r, top, mid, low, e, d, n);
    TrioHasRoom(r, top, mid, low, e, d, n);
    hide Emptiest, OthersSpare, ServingIds, SheddableIds;
    var me, spread := e + d + n, r.settings.spreadPct;
    assert (100 * me - e * (100 + spread)) / 100 == n;
    assert BalanceExcess(r, top, 0) == n;
    assert IsBusiest(r, SheddableIds(r, 0), top);
  }

  lemma AtTheCeiling(e: nat, d: nat, spread: nat)
    requires e * (100 + spread) == 100 * (e + d)
    ensures Ceiling(e, spread) == e + d
  {
    assert e * (100 + spread) == 100 * e + e * spread;
  }

  lemma TrioReleases(r: Inner, top: string, mid: string, low: string, e: nat, d: nat, n: nat)
    requires Trio(r, top, mid, low, e, d, n) && LeadIsReleased(r.settings, e, d, n)
    ensures Releases(r, Trade(top, mid, n), 0) && Decide(r, top, 0) == (n, AutoBalance)
  {
    TrioDecides(r, top, mid, low, e, d, n);
    TrioLists(r, top, mid, low, e, d, n);
    hide Decide, Listed, LeadIsReleased;
    OneShareIsAll(mid, n);
  }

  lemma TrioLists(r: Inner, top: string, mid: string, low: string, e: nat, d: nat, n: nat)
    requires Trio(r, top, mid, low, e, d, n) && LeadIsReleased(r.settings, e, d, n)
    ensures Listed(r, mid, 0) && n > 0 && n <= Clients(r, top)
  {
    TrioServes(r, top, mid, low, e, d, n);
    AtTheCeiling(e, d, r.settings.spreadPct);
    hide Emptiest, ServingIds, SheddableIds, Ceiling;
  }

  lemma OneShareIsAll(to: string, n: nat)
    ensures Shared([Share(to, n)]) == n
  {
    assert [Share(to, n)][1..] == [];
    assert Shared([]) == 0;
  }

  lemma OneShareMigrates(r: Inner, from: string, to: string, n: nat)
    requires from in r.nodes && to in r.nodes && n <= Clients(r, from)
    ensures Shared([Share(to, n)]) == n && MigrateAll(r, from, [Share(to, n)]) == Migrate(r, from, to, n)
  {
    hide Migrate;
    OneShareIsAll(to, n);
    assert [Share(to, n)][1..] == [];
  }

  // Told to release its lead, the busiest trades places with the one at the
  // ceiling.
  lemma TrioSwaps(r: Inner, top: string, mid: string, low: string, e: nat, d: nat, n: nat)
    requires Trio(r, top, mid, low, e, d, n) && LeadIsReleased(r.settings, e, d, n)
    ensures Releases(r, Trade(top, mid, n), 0)
    ensures var r' := AfterRelease(r, Trade(top, mid, n), 0);
            Trio(r', mid, top, low, e, d, n) && r'.settings == r.settings
  {
    hide Releases, Decide, LeadIsReleased;
    TrioReleases(r, top, mid, low, e, d, n);
    TrioMoves(r, top, mid, low, e, d, n);
    OneShareMigrates(Released(r, top, n, AutoBalance, 0), top, mid, n);
    hide Trio;
  }

  lemma TrioMoves(r: Inner, top: string, mid: string, low: string, e: nat, d: nat, n: nat)
    requires Trio(r, top, mid, low, e, d, n)
    ensures var r' := Migrate(Released(r, top, n, AutoBalance, 0), top, mid, n);
            Trio(r', mid, top, low, e, d, n) && r'.settings == r.settings
  {
    var r' := Migrate(Released(r, top, n, AutoBalance, 0), top, mid, n);
    assert r'.nodes.Keys == {top, mid, low};
    assert r'.nodes[low] == r.nodes[low];
  }

  lemma {:induction false} TrioNeverEnds(r: Inner, top: string, mid: string, low: string, e: nat, d: nat, n: nat, k: nat)
    returns (rounds: seq<Round>, r': Inner)
    requires Trio(r, top, mid, low, e, d, n) && LeadIsReleased(r.settings, e, d, n)
    ensures |rounds| == k && Balances(r, rounds, r', 0)
    decreases k
  {
    hide Trio, LeadIsReleased, Releases, AfterRelease;
    if k == 0 {
      return [], r;
    }
    TrioSwaps(r, top, mid, low, e, d, n);
    var x := Trade(top, mid, n);
    var more;
    more, r' := TrioNeverEnds(AfterRelease(r, x, 0), mid, top, low, e, d, n, k - 1);
    rounds := [x] + more;
    assert rounds[1..] == more;
  }

  function TrioOf(s: Settings, e: nat, d: nat, n: nat): Inner {
    var node := (id: string, clients: nat) =>
      Node(Heartbeat(id, 1, true, false, clients, e + d + n + 1), 0, false, 0, 0, 0);
    Inner(map["a" := node("a", e + d + n), "b" := node("b", e + d), "c" := node("c", e)], map[], s, 0)
  }

  ghost predicate BoundedBy(r: Inner, now: nat, bound: nat) {
    forall rounds, r' :: Balances(r, rounds, r', now) ==> |rounds| <= bound
  }

  ghost predicate AlwaysEnds(r: Inner, now: nat) {
    exists bound: nat :: BoundedBy(r, now, bound)
  }

  lemma TrioIsUnbounded(s: Settings, e: nat, d: nat, n: nat)
    requires LeadIsReleased(s, e, d, n)
    ensures !AlwaysEnds(TrioOf(s, e, d, n), 0)
  {
    var r := TrioOf(s, e, d, n);
    assert Trio(r, "a", "b", "c", e, d, n);
    hide Trio, Balances, TrioOf, LeadIsReleased;
    forall bound: nat ensures !BoundedBy(r, 0, bound) {
      var rounds, r' := TrioNeverEnds(r, "a", "b", "c", e, d, n, bound + 1);
      assert Balances(r, rounds, r', 0);
    }
  }

  // Balancing ends from everywhere exactly when the settings rule swaps out.
  lemma AlwaysEndsIff(s: Settings)
    requires s.autoBalance
    ensures !MaySwap(s) <==> forall r: Inner, now: nat :: r.settings == s ==> AlwaysEnds(r, now)
  {
    if MaySwap(s) {
      var n := Max(s.minExcess, 1);
      var e, d := 100 * n, n * s.spreadPct;
      assert e * (100 + s.spreadPct) == 100 * (e + d) && n <= d;
      TrioIsUnbounded(s, e, d, n);
      assert TrioOf(s, e, d, n).settings == s;
    } else {
      forall r: Inner, now: nat | r.settings == s ensures AlwaysEnds(r, now) {
        SumOfSquaresIsNatural(r, now);
        var bound: nat := SumOfSquares(r, now);
        forall rounds, r' | Balances(r, rounds, r', now) ensures |rounds| <= bound {
          BalancingTerminates(r, rounds, r', now);
        }
        assert BoundedBy(r, now, bound);
      }
    }
  }

  // The default settings do not: 110, 105 and 100 clients keep trading places.
  lemma DefaultsMaySwapForever()
    ensures !AlwaysEnds(TrioOf(Settings(true, 20, 5, 5), 100, 5, 5), 0)
  {
    TrioIsUnbounded(Settings(true, 20, 5, 5), 100, 5, 5);
  }

  // Where balancing stops, exactly: the busiest node gives nothing away iff it
  // is within the spread plus the minimal excess of the emptiest one, or the
  // gap is under twice that excess, or the others lack room for it.
  lemma StopsExactlyWhenBalanced(r: Inner, id: string, now: nat)
    requires id in r.nodes && IsBusiest(r, SheddableIds(r, now), id)
    requires r.settings.autoBalance && r.nodes[id].pendingRelease == 0
    ensures var m, me, e := Max(r.settings.minExcess, 1), Clients(r, id), Emptiest(r, now);
            Decide(r, id, now).0 == 0
            <==> (|| 100 * me < e * (100 + r.settings.spreadPct) + 100 * m
                  || me - e < 2 * m
                  || OthersSpare(r, id, now) < m)
  {
    var m, me, e := Max(r.settings.minExcess, 1), Clients(r, id), Emptiest(r, now);
    var x := 100 * me - e * (100 + r.settings.spreadPct);
    assert x / 100 >= m <==> x >= 100 * m;
    SumNonNegative(SpareOf(r, ServingIds(r, now) - {id}));
  }

  // When a node is told to release, and why: a manual request always, and without
  // one for balance exactly if balancing is on and the node is the busiest, beyond
  // the spread by the least excess, twice that above the emptiest, and the others
  // have room for it.
  lemma ReleasesIff(r: Inner, id: string, now: nat)
    requires id in r.nodes
    ensures var (n, reason) := Decide(r, id, now);
      var m, me, e := Max(r.settings.minExcess, 1), Clients(r, id), Emptiest(r, now);
      && (reason.Manual? <==> r.nodes[id].pendingRelease > 0) && (reason.Manual? ==> n > 0)
      && (n > 0 && reason.AutoBalance? <==>
            && r.nodes[id].pendingRelease == 0 && r.settings.autoBalance && IsBusiest(r, SheddableIds(r, now), id)
            && 100 * me >= e * (100 + r.settings.spreadPct) + 100 * m && me - e >= 2 * m && OthersSpare(r, id, now) >= m)
      && (reason.Nothing? ==> n == 0)
  {
    if IsBusiest(r, SheddableIds(r, now), id) && r.settings.autoBalance && r.nodes[id].pendingRelease == 0 {
      StopsExactlyWhenBalanced(r, id, now);
    }
    hide IsBusiest, BalanceExcess;
  }

  // ----- heartbeats -----

  datatype Outcome = Outcome(firstSeen: bool, restarted: bool, desiredDrain: bool, release: nat, reason: Reason)

  // One heartbeat: a restarted process is no longer drained; a relay is
  // neither drained nor asked to release anything.
  ghost function Beat(r: Inner, hb: Heartbeat, now: nat): (Inner, Outcome) {
    var id := hb.nodeId;
    var known := id in r.nodes;
    var was := if known then r.nodes[id] else Node(hb, now, false, 0, 0, 0);
    var restarted := known && was.heartbeat.startedAtMs != 0 && was.heartbeat.startedAtMs != hb.startedAtMs;
    var node := was.(heartbeat := hb, lastSeenMs := now, desiredDrain := was.desiredDrain && !restarted);
    if AdminOf(r, id).relay then
      (r.(nodes := r.nodes[id := node.(desiredDrain := false, pendingRelease := 0)]),
       Outcome(!known, restarted, false, 0, Nothing))
    else
      var r1 := r.(nodes := r.nodes[id := node]);
      var (n, reason) := Decide(r1, id, now);
      (Released(r1, id, n, reason, now), Outcome(!known, restarted, node.desiredDrain, n, reason))
  }

  // Whatever was requested before, a relay's heartbeat is answered with no
  // drain and no release, forgets both requests, and the node is not serving.
  lemma RelayIsLeftAlone(r: Inner, hb: Heartbeat, now: nat, later: nat)
    requires AdminOf(r, hb.nodeId).relay
    ensures var (r', out) := Beat(r, hb, now);
            && out.release == 0 && !out.desiredDrain
            && hb.nodeId in r'.nodes && !r'.nodes[hb.nodeId].desiredDrain && r'.nodes[hb.nodeId].pendingRelease == 0
            && hb.nodeId !in ServingIds(r', later) && hb.nodeId !in SheddableIds(r', later)
  {
  }

  ghost function Beats(r: Inner, hbs: seq<(Heartbeat, nat)>): Inner {
    if hbs == [] then r else Beat(Beats(r, hbs[..|hbs| - 1]), hbs[|hbs| - 1].0, hbs[|hbs| - 1].1).0
  }

  // How many of the heartbeats are `id`'s own.
  function Mine(hbs: seq<(Heartbeat, nat)>, id: string): nat {
    if hbs == [] then 0 else Mine(hbs[..|hbs| - 1], id) + if hbs[|hbs| - 1].0.nodeId == id then 1 else 0
  }

  // ----- what the registry knows of a node -----

  // The node's own latest heartbeat and when it came.
  function LatestBeat(hbs: seq<(Heartbeat, nat)>, id: string): Option<(Heartbeat, nat)> {
    if hbs == [] then None
    else if hbs[|hbs| - 1].0.nodeId == id then Some(hbs[|hbs| - 1])
    else LatestBeat(hbs[..|hbs| - 1], id)
  }

  // The start of the process last heard of, 0 if none.
  function LatestStart(r: Inner, hbs: seq<(Heartbeat, nat)>, id: string): nat {
    var latest := LatestBeat(hbs, id);
    if latest.Some? then latest.value.0.startedAtMs
    else if id in r.nodes then r.nodes[id].heartbeat.startedAtMs
    else 0
  }

  // Some heartbeat came from another process than the one before it.
  predicate Restarts(r: Inner, hbs: seq<(Heartbeat, nat)>, id: string) {
    hbs != [] &&
    var hb, init := hbs[|hbs| - 1].0, hbs[..|hbs| - 1];
    || Restarts(r, init, id)
    || (hb.nodeId == id && LatestStart(r, init, id) != 0 && LatestStart(r, init, id) != hb.startedAtMs)
  }

  // Over any heartbeats of any nodes, what is known of a node is its own latest
  // heartbeat and when that came; and an operator's drain lasts exactly until the
  // node restarts.
  lemma {:induction false} LatestBeatCounts(r: Inner, id: string, hbs: seq<(Heartbeat, nat)>)
    ensures var r', latest := Beats(r, hbs), LatestBeat(hbs, id);
      && r'.admin == r.admin
      && (id in r'.nodes <==> id in r.nodes || latest.Some?)
      && (latest.Some? ==> (r'.nodes[id].heartbeat, r'.nodes[id].lastSeenMs) == latest.value)
      && (latest.None? && id in r.nodes ==> r'.nodes[id] == r.nodes[id])
      && (!AdminOf(r, id).relay && id in r'.nodes ==>
            (r'.nodes[id].desiredDrain <==> id in r.nodes && r.nodes[id].desiredDrain && !Restarts(r, hbs, id)))
  {
    hide Beat;
    if hbs != [] {
      var n := |hbs| - 1;
      LatestBeatCounts(r, id, hbs[..n]);
      BeatRecords(Beats(r, hbs[..n]), hbs[n].0, hbs[n].1);
      BeatKeepsAdmin(Beats(r, hbs[..n]), hbs[n].0, hbs[n].1);
      if hbs[n].0.nodeId != id && id in Beats(r, hbs[..n]).nodes {
        BeatLeavesOthers(Beats(r, hbs[..n]), hbs[n].0, hbs[n].1, id);
      }
    }
  }

  // One heartbeat: what is recorded and what is answered.
  lemma BeatRecords(r: Inner, hb: Heartbeat, now: nat)
    ensures var (r', out) := Beat(r, hb, now);
      var id := hb.nodeId;
      var restarted := id in r.nodes && r.nodes[id].heartbeat.startedAtMs != 0 && r.nodes[id].heartbeat.startedAtMs != hb.startedAtMs;
      && r'.nodes.Keys == r.nodes.Keys + {id}
      && r'.nodes[id].heartbeat == hb && r'.nodes[id].lastSeenMs == now
      && (r'.nodes[id].desiredDrain <==> !AdminOf(r, id).relay && id in r.nodes && r.nodes[id].desiredDrain && !restarted)
      && (out.firstSeen <==> id !in r.nodes) && (out.restarted <==> restarted) && out.desiredDrain == r'.nodes[id].desiredDrain
      && r'.nodes[id].releasedTotal == (if id in r.nodes then r.nodes[id].releasedTotal else 0) + out.release
      && r'.nodes[id].lastReleaseMs == (if out.reason.Nothing? then (if id in r.nodes then r.nodes[id].lastReleaseMs else 0) else now)
      && (out.release > 0 ==> !out.reason.Nothing?)
  {
    hide BalanceExcess, IsBusiest, SheddableIds;
  }

  lemma BeatLeavesOthers(r: Inner, hb: Heartbeat, now: nat, id: string)
    requires id in r.nodes && hb.nodeId != id
    ensures var r' := Beat(r, hb, now).0;
            id in r'.nodes && r'.nodes[id] == r.nodes[id] && r'.admin == r.admin && r'.settings == r.settings
  {
    hide Decide;
  }

  // A manual request is served in full, one batch per heartbeat of the node,
  // whatever heartbeats of whichever nodes come in: after k of its own exactly
  // min(requested, k * batch) of it has been released.
  lemma {:induction false} ManualReleaseIsServed(r: Inner, id: string, hbs: seq<(Heartbeat, nat)>)
    requires id in r.nodes && !AdminOf(r, id).relay
    ensures var r' := Beats(r, hbs);
            && id in r'.nodes && r'.admin == r.admin && r'.settings == r.settings
            && r'.nodes[id].pendingRelease
               == SatSub(r.nodes[id].pendingRelease, Mine(hbs, id) * Max(r.settings.releaseBatch, 1))
            && r'.nodes[id].releasedTotal - r.nodes[id].releasedTotal
               >= r.nodes[id].pendingRelease - r'.nodes[id].pendingRelease
  {
    hide Beat;
    if hbs != [] {
      var n := |hbs| - 1;
      var batch := Max(r.settings.releaseBatch, 1);
      ManualReleaseIsServed(r, id, hbs[..n]);
      var r1 := Beats(r, hbs[..n]);
      if hbs[n].0.nodeId == id {
        BeatServesOneBatch(r1, hbs[n].0, hbs[n].1);
        var k := Mine(hbs[..n], id);
        assert (k + 1) * batch == k * batch + batch;
      } else {
        BeatLeavesOthers(r1, hbs[n].0, hbs[n].1, id);
      }
    }
  }

  // An operator's request replaces whatever was still pending.
  function Requested(r: Inner, id: string, count: nat): Inner {
    if id in r.nodes then r.(nodes := r.nodes[id := r.nodes[id].(pendingRelease := count)]) else r
  }

  // A request is gone, with all of it released, exactly once the node has sent
  // as many heartbeats as it takes batches.
  lemma RequestIsServedInFull(r: Inner, id: string, count: nat, hbs: seq<(Heartbeat, nat)>)
    requires id in r.nodes && !AdminOf(r, id).relay
    ensures var r' := Beats(Requested(r, id, count), hbs);
            && id in r'.nodes
            && (r'.nodes[id].pendingRelease == 0 <==> count <= Mine(hbs, id) * Max(r.settings.releaseBatch, 1))
            && (r'.nodes[id].pendingRelease == 0 ==> r'.nodes[id].releasedTotal >= r.nodes[id].releasedTotal + count)
  {
    ManualReleaseIsServed(Requested(r, id, count), id, hbs);
  }

  // Over every run of heartbeats of any nodes, a relay is never in play; and
  // once it has reported, whatever was asked of it before is forgotten.
  lemma {:induction false} RelayStaysOut(r: Inner, id: string, hbs: seq<(Heartbeat, nat)>, later: nat)
    requires AdminOf(r, id).relay
    ensures var r' := Beats(r, hbs);
            && AdminOf(r', id).relay && id !in ServingIds(r', later) && id !in SheddableIds(r', later)
            && (Mine(hbs, id) > 0 ==>
                  id in r'.nodes && !r'.nodes[id].desiredDrain && r'.nodes[id].pendingRelease == 0)
  {
    hide Decide, Released;
    if hbs != [] {
      var n := |hbs| - 1;
      RelayStaysOut(r, id, hbs[..n], later);
      var r1 := Beats(r, hbs[..n]);
      BeatKeepsAdmin(r1, hbs[n].0, hbs[n].1);
      if hbs[n].0.nodeId != id && id in r1.nodes {
        BeatLeavesOthers(r1, hbs[n].0, hbs[n].1, id);
      }
    }
  }

  // Nor is a node the operator has disabled, whatever it reports.
  lemma {:induction false} DisabledStaysOut(r: Inner, id: string, hbs: seq<(Heartbeat, nat)>, later: nat)
    requires AdminOf(r, id).disabled
    ensures var r' := Beats(r, hbs);
            AdminOf(r', id).disabled && id !in ServingIds(r', later) && id !in SheddableIds(r', later)
  {
    hide Beat;
    if hbs != [] {
      var n := |hbs| - 1;
      DisabledStaysOut(r, id, hbs[..n], later);
      BeatKeepsAdmin(Beats(r, hbs[..n]), hbs[n].0, hbs[n].1);
    }
  }

  lemma BeatKeepsAdmin(r: Inner, hb: Heartbeat, now: nat)
    ensures Beat(r, hb, now).0.admin == r.admin
  {
    hide Decide;
  }

  lemma BeatServesOneBatch(r: Inner, hb: Heartbeat, now: nat)
    requires hb.nodeId in r.nodes && !AdminOf(r, hb.nodeId).relay
    ensures var (r', out) := Beat(r, hb, now);
            var before, after := r.nodes[hb.nodeId], r'.nodes[hb.nodeId];
            && hb.nodeId in r'.nodes && r'.admin == r.admin && r'.settings == r.settings
            && after.pendingRelease == SatSub(before.pendingRelease, Max(r.settings.releaseBatch, 1))
            && after.releasedTotal == before.releasedTotal + out.release
            && (before.pendingRelease > 0 ==> out.release == before.pendingRelease - after.pendingRelease)
  {
    hide Sum, IsBusiest, BalanceExcess;
  }
}

module PublicListing {
  import opened Basics
  import opened StringOrder
  import opened Registry

  datatype PublicNode = PublicNode(nodeId: string, weight: nat, clients: nat)

  datatype Ordering = Lesser | Equal | Greater

  function Flip(o: Ordering): Ordering {
    match o
    case Lesser => Greater
    case Equal => Equal
    case Greater => Lesser
  }

  function CompareNat(a: nat, b: nat): Ordering {
    if a < b then Lesser else if a == b then Equal else Greater
  }

  function CompareId(a: string, b: string): Ordering {
    if Less(a, b) then Lesser else if a == b then Equal else Greater
  }

  function Then(o: Ordering, next: Ordering): Ordering {
    if o.Equal? then next else o
  }

  // Nodes within the ceiling are all alike; the others follow, by clients,
  // then by spare capacity, then by id.
  function Compare(ceiling: nat, a: PublicNode, b: PublicNode): Ordering {
    match (a.clients <= ceiling, b.clients <= ceiling)
    case (true, true) => Equal
    case (true, false) => Lesser
    case (false, true) => Greater
    case (false, false) =>
      Then(CompareNat(a.clients, b.clients), Then(CompareNat(b.weight, a.weight), CompareId(a.nodeId, b.nodeId)))
  }

  predicate Leq(ceiling: nat, a: PublicNode, b: PublicNode) {
    !Compare(ceiling, a, b).Greater?
  }

  lemma CompareIsTotalPreorder(ceiling: nat, a: PublicNode, b: PublicNode, c: PublicNode)
    ensures Compare(ceiling, a, a) == Equal
    ensures Compare(ceiling, b, a) == Flip(Compare(ceiling, a, b))
    ensures Leq(ceiling, a, b) || Leq(ceiling, b, a)
    ensures Leq(ceiling, a, b) && Leq(ceiling, b, c) ==> Leq(ceiling, a, c)
  {
    LessTotal(a.nodeId, b.nodeId);
    LessTotal(b.nodeId, c.nodeId);
    LessTotal(a.nodeId, c.nodeId);
    if Less(a.nodeId, b.nodeId) && Less(b.nodeId, c.nodeId) {
      LessTransitive(a.nodeId, b.nodeId, c.nodeId);
    }
  }

  function Insert(ceiling: nat, s: seq<PublicNode>, x: PublicNode): seq<PublicNode> {
    if s == [] || Leq(ceiling, s[|s| - 1], x) then s + [x]
    else Insert(ceiling, s[..|s| - 1], x) + [s[|s| - 1]]
  }

  // A stable sort: an element never overtakes one it compares equal to.
  function StableSort(ceiling: nat, s: seq<PublicNode>): seq<PublicNode> {
    if s == [] then [] else Insert(ceiling, StableSort(ceiling, s[..|s| - 1]), s[|s| - 1])
  }

  ghost predicate Sorted(ceiling: nat, s: seq<PublicNode>) {
    forall i, j :: 0 <= i < j < |s| ==> Leq(ceiling, s[i], s[j])
  }

  function InBand(ceiling: nat, s: seq<PublicNode>): seq<PublicNode> {
    if s == [] then []
    else InBand(ceiling, s[..|s| - 1]) + if s[|s| - 1].clients <= ceiling then [s[|s| - 1]] else []
  }

  lemma {:induction false} InsertIsPermutation(ceiling: nat, s: seq<PublicNode>, x: PublicNode)
    ensures multiset(Insert(ceiling, s, x)) == multiset(s) + multiset{x}
  {
    hide Leq;
    if s != [] && !Leq(ceiling, s[|s| - 1], x) {
      var n := |s| - 1;
      InsertIsPermutation(ceiling, s[..n], x);
      assert s == s[..n] + [s[n]];
    }
  }

  lemma {:induction false} InsertKeepsSorted(ceiling: nat, s: seq<PublicNode>, x: PublicNode)
    requires Sorted(ceiling, s)
    ensures Sorted(ceiling, Insert(ceiling, s, x))
  {
    hide Leq;
    if s == [] {
    } else if Leq(ceiling, s[|s| - 1], x) {
      forall i | 0 <= i < |s| ensures Leq(ceiling, s[i], x) {
        CompareIsTotalPreorder(ceiling, s[i], s[|s| - 1], x);
      }
    } else {
      var n := |s| - 1;
      var t := Insert(ceiling, s[..n], x);
      InsertKeepsSorted(ceiling, s[..n], x);
      InsertIsPermutation(ceiling, s[..n], x);
      forall i | 0 <= i < |t| ensures Leq(ceiling, t[i], s[n]) {
        assert t[i] in multiset(t);
        CompareIsTotalPreorder(ceiling, s[n], x, x);
        assert t[i] != x ==> t[i] in s[..n];
      }
    }
  }

  lemma {:induction false} InsertKeepsBandOrder(ceiling: nat, s: seq<PublicNode>, x: PublicNode)
    ensures InBand(ceiling, Insert(ceiling, s, x)) == InBand(ceiling, s) + if x.clients <= ceiling then [x] else []
  {
    var r := Insert(ceiling, s, x);
    if s == [] || Leq(ceiling, s[|s| - 1], x) {
      assert r[..|s|] == s;
    } else {
      var t := Insert(ceiling, s[..|s| - 1], x);
      InsertKeepsBandOrder(ceiling, s[..|s| - 1], x);
      assert r[..|t|] == t;
    }
  }

  lemma {:induction false} StableSortFacts(ceiling: nat, s: seq<PublicNode>)
    ensures Sorted(ceiling, StableSort(ceiling, s))
    ensures multiset(StableSort(ceiling, s)) == multiset(s)
    ensures InBand(ceiling, StableSort(ceiling, s)) == InBand(ceiling, s)
  {
    if s != [] {
      var n := |s| - 1;
      StableSortFacts(ceiling, s[..n]);
      var t := StableSort(ceiling, s[..n]);
      InsertKeepsSorted(ceiling, t, s[n]);
      InsertIsPermutation(ceiling, t, s[n]);
      InsertKeepsBandOrder(ceiling, t, s[n]);
      assert s == s[..n] + [s[n]];
    }
  }

  function Listed(r: Inner, id: string): PublicNode
    requires id in r.nodes
  {
    var hb := r.nodes[id].heartbeat;
    PublicNode(id, Max(SatSub(hb.maxClients, hb.clients), 1), hb.clients)
  }

  function ListAll(r: Inner, ids: seq<string>): seq<PublicNode>
    requires forall i :: 0 <= i < |ids| ==> ids[i] in r.nodes
  {
    seq(|ids|, i requires 0 <= i < |ids| => Listed(r, ids[i]))
  }

  // An enumeration of the serving nodes, in the order the shuffle left them.
  ghost predicate Shuffle(r: Inner, now: nat, ids: seq<string>) {
    && (forall i :: 0 <= i < |ids| ==> ids[i] in ServingIds(r, now))
    && (forall id :: id in ServingIds(r, now) ==> id in ids)
    && (forall i, j :: 0 <= i < j < |ids| ==> ids[i] != ids[j])
  }

  function FewestOf(nodes: seq<PublicNode>): (n: nat)
    ensures nodes == [] ==> n == 0
    ensures nodes != [] ==> exists k :: 0 <= k < |nodes| && nodes[k].clients == n
    ensures forall k :: 0 <= k < |nodes| ==> n <= nodes[k].clients
  {
    if nodes == [] then 0
    else if |nodes| == 1 then nodes[0].clients
    else
      var n := FewestOf(nodes[1..]);
      if nodes[0].clients <= n then nodes[0].clients
      else
        assert exists k :: 0 <= k < |nodes| - 1 && nodes[1..][k].clients == n && nodes[k + 1].clients == n;
        n
  }

  // The order outside the band: fewer clients, then more room, then the id.
  predicate Before(a: PublicNode, b: PublicNode) {
    a.clients < b.clients
    || (a.clients == b.clients && (a.weight > b.weight || (a.weight == b.weight && (Less(a.nodeId, b.nodeId) || a.nodeId == b.nodeId))))
  }

  // A node's entry on the list.
  predicate Describes(r: Inner, n: PublicNode) {
    n.nodeId in r.nodes &&
    var hb := r.nodes[n.nodeId].heartbeat;
    n.clients == hb.clients && n.weight >= 1 && n.weight == if hb.clients < hb.maxClients then hb.maxClients - hb.clients else 1
  }

  // The public list: exactly the serving nodes, those within the spread of the
  // emptiest one first and in shuffled order, the rest by ascending clients.
  method PublicList(r: Inner, now: nat, ids: seq<string>) returns (list: seq<PublicNode>)
    requires Shuffle(r, now, ids)
    ensures multiset(list) == multiset(ListAll(r, ids))
    ensures forall n <- list :: Describes(r, n)
    ensures forall id :: (exists n <- list :: n.nodeId == id) <==>
              InService(r, id, now) && r.nodes[id].heartbeat.clients < r.nodes[id].heartbeat.maxClients
    ensures var ceiling := Ceiling(Emptiest(r, now), r.settings.spreadPct);
            && InBand(ceiling, list) == InBand(ceiling, ListAll(r, ids))
            && (forall i, j :: 0 <= i < j < |list| && list[j].clients <= ceiling ==> list[i].clients <= ceiling)
            && (forall i, j :: 0 <= i < j < |list| && list[i].clients > ceiling ==> Before(list[i], list[j]))
    ensures list != [] ==> list[0].clients <= Ceiling(Emptiest(r, now), r.settings.spreadPct)
  {
    hide Sorted, StableSort, InBand, Emptiest, Ceiling;
    var nodes := ListAll(r, ids);
    var emptiest := FewestOf(nodes);
    EmptiestOfList(r, now, ids);
    var ceiling := Ceiling(emptiest, r.settings.spreadPct);
    list := StableSort(ceiling, nodes);
    StableSortFacts(ceiling, nodes);
    SortedIsBanded(ceiling, list);
    assert emptiest <= ceiling by { CeilingIsAbove(emptiest, r.settings.spreadPct); }
    HeadIsInBand(ceiling, nodes, list, emptiest);
    ListsTheServing(r, now, ids, list);
  }

  lemma ListsTheServing(r: Inner, now: nat, ids: seq<string>, list: seq<PublicNode>)
    requires Shuffle(r, now, ids) && multiset(list) == multiset(ListAll(r, ids))
    ensures forall n <- list :: Describes(r, n)
    ensures forall id :: (exists n <- list :: n.nodeId == id) <==>
              InService(r, id, now) && r.nodes[id].heartbeat.clients < r.nodes[id].heartbeat.maxClients
  {
    var nodes := ListAll(r, ids);
    forall n ensures n in list <==> n in nodes {
      assert n in multiset(list) <==> n in multiset(nodes);
    }
    forall n | n in list ensures Describes(r, n) && n.nodeId in ServingIds(r, now) {
      var i :| 0 <= i < |nodes| && nodes[i] == n;
      assert ids[i] in ServingIds(r, now);
    }
    forall id ensures (exists n <- list :: n.nodeId == id) <==> id in ServingIds(r, now) {
      if id in ServingIds(r, now) {
        var i :| 0 <= i < |ids| && ids[i] == id;
        assert nodes[i] in list;
      }
    }
    hide ServingIds, SheddableIds;
    forall id {
      ServingIff(r, id, now);
    }
  }

  lemma CeilingIsAbove(emptiest: nat, spreadPct: nat)
    ensures emptiest <= Ceiling(emptiest, spreadPct)
  {
  }

  lemma SortedIsBanded(ceiling: nat, list: seq<PublicNode>)
    requires Sorted(ceiling, list)
    ensures forall i, j :: 0 <= i < j < |list| && list[j].clients <= ceiling ==> list[i].clients <= ceiling
    ensures forall i, j :: 0 <= i < j < |list| && list[i].clients > ceiling ==> Before(list[i], list[j])
  {
    forall i, j | 0 <= i < j < |list|
      ensures list[j].clients <= ceiling ==> list[i].clients <= ceiling
      ensures list[i].clients > ceiling ==> Before(list[i], list[j])
    {
      assert Leq(ceiling, list[i], list[j]);
    }
  }

  lemma EmptiestOfList(r: Inner, now: nat, ids: seq<string>)
    requires Shuffle(r, now, ids)
    ensures FewestOf(ListAll(r, ids)) == Emptiest(r, now)
  {
    hide Emptiest, FewestOf;
    var nodes := ListAll(r, ids);
    var n, e := FewestOf(nodes), Emptiest(r, now);
    if ids != [] {
      var j :| 0 <= j < |nodes| && nodes[j].clients == n;
      assert ids[j] in ServingIds(r, now) && Clients(r, ids[j]) == n;
      var id :| id in ServingIds(r, now) && Clients(r, id) == e;
      var k :| 0 <= k < |ids| && ids[k] == id;
      assert nodes[k].clients == e;
    }
  }

  lemma HeadIsInBand(ceiling: nat, nodes: seq<PublicNode>, list: seq<PublicNode>, emptiest: nat)
    requires multiset(list) == multiset(nodes) && Sorted(ceiling, list) && emptiest <= ceiling
    requires nodes != [] ==> exists k :: 0 <= k < |nodes| && nodes[k].clients == emptiest
    ensures list != [] ==> list[0].clients <= ceiling
  {
    if list != [] {
      assert list[0] in multiset(nodes);
      var k :| 0 <= k < |nodes| && nodes[k].clients == emptiest;
      assert nodes[k] in multiset(list);
      var j :| 0 <= j < |list| && list[j] == nodes[k];
      assert j > 0 ==> Leq(ceiling, list[0], list[j]);
    }
  }
}
