/** Which clients a tape event fills, in which order, and how that follows from the client list. */
module CrossTrace {
  import opened Types
  import opened Fifo
  import opened VenueState
  import opened ShadowState
  import Matcher
  import Ledger

  /**
   * Who is next: of the clients a tape order crosses the first listed with the best price, or the first
   * listed of the clients ahead of an executed tape order.
   */
  datatype Rule = BestPrice(live: map<nat, LiveOrder>, side: Side, tick: int) | FirstOf(el: set<nat>)

  /** One fill: the client's place in the list, its order and the shares it gets. */
  datatype Hit = Hit(at: nat, ref: nat, qty: nat)

  /** The client list, everybody's open shares, and what is left to hand out. */
  datatype Scene = Scene(clients: seq<nat>, held: map<nat, nat>, left: nat)

  /** A run so far: its fills, the scenes between them and where it stands. */
  datatype Trail = Trail(hits: seq<Hit>, scenes: seq<Scene>, now: Scene)

  predicate Opposes(live: map<nat, LiveOrder>, side: Side, tick: int, r: nat) {
    r in live && live[r].side != side && Matcher.Crosses(side, tick, live[r].tick)
  }

  /** The client may be filled at all. */
  ghost predicate Due(rule: Rule, r: nat) {
    match rule
    case BestPrice(live, side, tick) => Opposes(live, side, tick, r)
    case FirstOf(el) => r in el
  }

  /** The client at that place has the best price of those crossed, and comes before all others with it. */
  ghost predicate FirstBest(live: map<nat, LiveOrder>, side: Side, tick: int, clients: seq<nat>, at: nat) {
    && at < |clients| && Opposes(live, side, tick, clients[at])
    && (forall j :: 0 <= j < |clients| && Opposes(live, side, tick, clients[j]) ==>
          Matcher.Crosses(side, live[clients[j]].tick, live[clients[at]].tick))
    && (forall j :: 0 <= j < at && Opposes(live, side, tick, clients[j]) ==>
          live[clients[j]].tick != live[clients[at]].tick)
  }

  /** The client at that place is next. */
  ghost predicate Chosen(rule: Rule, clients: seq<nat>, at: nat) {
    match rule
    case BestPrice(live, side, tick) => FirstBest(live, side, tick, clients, at)
    case FirstOf(el) => at < |clients| && clients[at] in el && forall j :: 0 <= j < at ==> clients[j] !in el
  }

  /** That client gets what it can take, and leaves the list, its place taken by the last, once it has nothing open. */
  ghost predicate FillStep(rule: Rule, s: Scene, h: Hit, s': Scene) {
    && s.left > 0 && h.at < |s.clients| && Chosen(rule, s.clients, h.at) && h.ref == s.clients[h.at] && h.ref in s.held
    && h.qty == Min(s.left, s.held[h.ref])
    && s' == Scene(if h.qty == s.held[h.ref] then SwapRemove(s.clients, h.at) else s.clients,
                   Less(s.held, h.ref, h.qty), s.left - h.qty)
  }

  /** Nothing left to give, or nobody left to get it. */
  ghost predicate Over(rule: Rule, s: Scene) {
    s.left == 0 || forall j :: 0 <= j < |s.clients| ==> !Due(rule, s.clients[j])
  }

  ghost predicate HitPath(rule: Rule, hits: seq<Hit>, scenes: seq<Scene>) {
    && |scenes| == |hits| + 1
    && forall i :: 0 <= i < |hits| ==> FillStep(rule, scenes[i], hits[i], scenes[i + 1])
  }

  /** What the clients hear of the fills. */
  function HitAck(live: map<nat, LiveOrder>, wire: nat, h: Hit): Ledger.Ack {
    if h.ref in live then Ledger.Executed(live[h.ref].userRef, h.qty, Wire(live[h.ref].tick, wire))
    else Ledger.Executed(0, 0, 0)
  }

  function HitAcks(live: map<nat, LiveOrder>, wire: nat, hits: seq<Hit>): seq<Ledger.Ack> {
    seq(|hits|, i requires 0 <= i < |hits| => HitAck(live, wire, hits[i]))
  }

  /** The fills so far lead from start to where the run stands, and the clients heard of exactly these. */
  ghost predicate Ran(rule: Rule, live: map<nat, LiveOrder>, wire: nat, t: Trail, start: Scene,
                      oe0: seq<Ledger.Ack>, oe: seq<Ledger.Ack>) {
    match t
    case Trail(hits, scenes, now) =>
      forall k: nat {:trigger Look(CrossSeal, k)} :: Look(CrossSeal, k) ==>
        && HitPath(rule, hits, scenes) && scenes[0] == start && scenes[|hits|] == now
        && oe == oe0 + HitAcks(live, wire, hits)
  }

  lemma RanMeans(rule: Rule, live: map<nat, LiveOrder>, wire: nat, t: Trail, start: Scene,
                 oe0: seq<Ledger.Ack>, oe: seq<Ledger.Ack>)
    requires Ran(rule, live, wire, t, start, oe0, oe)
    ensures HitPath(rule, t.hits, t.scenes) && t.scenes[0] == start && t.scenes[|t.hits|] == t.now
    ensures oe == oe0 + HitAcks(live, wire, t.hits)
  {
    assert Look(CrossSeal, 0);
  }

  function Standing(s: Scene): Trail {
    Trail([], [s], s)
  }

  function Onward(t: Trail, h: Hit, s: Scene): Trail {
    Trail(t.hits + [h], t.scenes + [s], s)
  }

  lemma RanStart(rule: Rule, live: map<nat, LiveOrder>, wire: nat, s: Scene, oe: seq<Ledger.Ack>)
    ensures Ran(rule, live, wire, Standing(s), s, oe, oe)
  {
    assert HitAcks(live, wire, []) == [];
  }

  ghost predicate Fills(rule: Rule, s: Scene, h: Hit, s': Scene) {
    match s
    case Scene(_, _, _) =>
      forall k: nat {:trigger Look(CrossSeal, k)} :: Look(CrossSeal, k) ==> FillStep(rule, s, h, s')
  }

  lemma RanMore(rule: Rule, live: map<nat, LiveOrder>, wire: nat, t: Trail, start: Scene,
                oe0: seq<Ledger.Ack>, oe: seq<Ledger.Ack>, h: Hit, s: Scene)
    requires Ran(rule, live, wire, t, start, oe0, oe) && Fills(rule, t.now, h, s)
    ensures Ran(rule, live, wire, Onward(t, h, s), start, oe0, oe + [HitAck(live, wire, h)])
  {
    RanMeans(rule, live, wire, t, start, oe0, oe);
    assert Look(CrossSeal, 0);
    assert HitAcks(live, wire, t.hits + [h]) == HitAcks(live, wire, t.hits) + [HitAck(live, wire, h)];
  }

  /** A fill of the client chosen as the tables record it. */
  lemma FillsOk(rule: Rule, d: Desk, d': Desk, pool: seq<Order>, pool': seq<Order>, at: nat, ref: nat, qty: nat,
                fill: nat, left: nat)
    requires DeskOk(d, pool) && PoolFill(d, pool, pool', ref, fill) && d' == FillDesk(d, pool, ref, fill, d'.clients)
    requires at < |d.clients| && Chosen(rule, d.clients, at) && d.clients[at] == ref
    requires 0 < qty && fill == Min(qty, pool[d.live[ref].handle].qty) && left == qty - fill
    requires fill == pool[d.live[ref].handle].qty ==> d'.clients == SwapRemove(d.clients, at)
    ensures Fills(rule, Scene(d.clients, Quantities(d.live, pool), qty), Hit(at, ref, fill),
                  Scene(d'.clients, Quantities(d'.live, pool'), left))
  {
    FillQuantities(d, d', pool, pool', ref, fill);
  }

  /** Once nothing is left, or no client is crossed, the crossing is over. */
  lemma CrossingOver(live0: map<nat, LiveOrder>, side: Side, tick: int, d: Desk, pool: seq<Order>, left: nat)
    requires DeskOk(d, pool) && forall r :: r in d.live ==> r in live0 && d.live[r] == live0[r]
    requires left == 0 || forall r :: r in d.live && d.live[r].client ==> !Opposes(d.live, side, tick, r)
    ensures Over(BestPrice(live0, side, tick), Scene(d.clients, Quantities(d.live, pool), left))
  {
    DeskMeans(d, pool);
  }

  /** Walking the list, the first eligible client met is the one chosen. */
  lemma ShadowChosen(el: set<nat>, q0: map<nat, nat>, shares: nat, d: Desk, pool: seq<Order>, i: nat, qty: nat)
    requires Shadow(el, q0, shares, d, pool, i, qty) && qty > 0 && i < |d.clients| && d.clients[i] in el
    ensures Chosen(FirstOf(el), d.clients, i)
  {
  }

  lemma ShadowOver(el: set<nat>, q0: map<nat, nat>, shares: nat, d: Desk, pool: seq<Order>, i: nat, qty: nat)
    requires Shadow(el, q0, shares, d, pool, i, qty) && (i == |d.clients| || qty == 0)
    ensures Over(FirstOf(el), Scene(d.clients, Quantities(d.live, pool), qty))
  {
  }

  /** Only the listed clients' entries matter. */
  lemma FirstBestSame(live0: map<nat, LiveOrder>, side: Side, tick: int, d: Desk, pool: seq<Order>, at: nat)
    requires DeskOk(d, pool) && FirstBest(d.live, side, tick, d.clients, at)
    requires forall r :: r in d.live ==> r in live0 && d.live[r] == live0[r]
    ensures Chosen(BestPrice(live0, side, tick), d.clients, at)
  {
    DeskMeans(d, pool);
    assert forall j :: 0 <= j < |d.clients| ==>
             Opposes(live0, side, tick, d.clients[j]) == Opposes(d.live, side, tick, d.clients[j]);
  }

  /** Two places cannot both be next. */
  lemma ChosenUnique(rule: Rule, clients: seq<nat>, i: nat, j: nat)
    requires Chosen(rule, clients, i) && Chosen(rule, clients, j)
    ensures i == j
  {
    match rule
    case BestPrice(live, side, tick) => assert live[clients[i]].tick == live[clients[j]].tick;
    case FirstOf(_) =>
  }

  /** The start decides every fill: two finished runs from the same scene are the same run. */
  lemma {:induction false} RunUnique(rule: Rule, hits: seq<Hit>, scenes: seq<Scene>, hits': seq<Hit>,
                                     scenes': seq<Scene>)
    requires HitPath(rule, hits, scenes) && HitPath(rule, hits', scenes') && scenes[0] == scenes'[0]
    requires Over(rule, scenes[|hits|]) && Over(rule, scenes'[|hits'|])
    ensures hits == hits' && scenes == scenes'
    decreases |hits|
  {
    if hits != [] && hits' != [] {
      assert FillStep(rule, scenes[0], hits[0], scenes[1]) && FillStep(rule, scenes'[0], hits'[0], scenes'[1]);
      ChosenUnique(rule, scenes[0].clients, hits[0].at, hits'[0].at);
      TailPath(rule, hits, scenes);
      TailPath(rule, hits', scenes');
      RunUnique(rule, hits[1..], scenes[1..], hits'[1..], scenes'[1..]);
      assert hits == [hits[0]] + hits[1..] && scenes == [scenes[0]] + scenes[1..];
    } else if hits != [] {
      NotOver(rule, hits, scenes);
    } else if hits' != [] {
      NotOver(rule, hits', scenes');
    }
  }

  lemma NotOver(rule: Rule, hits: seq<Hit>, scenes: seq<Scene>)
    requires HitPath(rule, hits, scenes) && hits != []
    ensures !Over(rule, scenes[0])
  {
    assert FillStep(rule, scenes[0], hits[0], scenes[1]);
  }

  lemma TailPath(rule: Rule, hits: seq<Hit>, scenes: seq<Scene>)
    requires HitPath(rule, hits, scenes) && hits != []
    ensures HitPath(rule, hits[1..], scenes[1..])
  {
  }
}
