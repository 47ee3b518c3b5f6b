/** Price-time priority of one match, stated without reference to how the match runs. */
module PriceTime {
  import opened Orders
  import opened ListBook
  import Clock

  function Filled(hits: seq<Hit>): int {
    if hits == [] then 0 else hits[0].qty + Filled(hits[1..])
  }

  function Volume(l: seq<Entry>): int {
    if l == [] then 0 else l[0].remaining + Volume(l[1..])
  }

  /** All that is on offer within a limit order's price, or all there is for a market order,
      wherever it stands in the list. */
  function CrossingVolume(t: Taker, l: seq<Entry>): int {
    if l == [] then 0
    else
      var inReach := t.typ.Market? || (if t.side.Buy? then l[0].price <= t.price else l[0].price >= t.price);
      (if inReach then l[0].remaining else 0) + CrossingVolume(t, l[1..])
  }

  lemma {:induction false} MarketReachesAll(t: Taker, l: seq<Entry>)
    requires t.typ.Market?
    ensures CrossingVolume(t, l) == Volume(l)
  {
    if l != [] {
      MarketReachesAll(t, l[1..]);
    }
  }

  ghost predicate Live(l: seq<Entry>) {
    forall e :: e in l ==> e.remaining > 0
  }

  /** The resting orders hit are the first of the side, at prices the taker accepts, and
      all but the last of them are consumed whole. */
  ghost predicate HitsPrefix(t: Taker, opp: seq<Entry>, m: Outcome) {
    var k := |m.hits|;
    && k <= |opp|
    && (forall i :: 0 <= i < k ==>
          m.hits[i].maker == opp[i] && 0 < m.hits[i].qty <= opp[i].remaining && Crosses(t, opp[i].price))
    && (forall i :: 0 <= i < k - 1 ==> m.hits[i].qty == opp[i].remaining)
  }

  /** What is left of the side: the untouched rest, behind what is left of the last order hit. */
  ghost predicate LeavesRest(opp: seq<Entry>, m: Outcome)
    requires |m.hits| <= |opp|
  {
    var k := |m.hits|;
    m.side == if k > 0 && m.hits[k - 1].qty != opp[k - 1].remaining
              then ShrinkHead(opp[k - 1..], m.hits[k - 1].qty) else opp[k..]
  }

  /** Each fill reports the quantity still open; the match ends only when the order is
      filled or the next resting order is out of reach. */
  ghost predicate Accounts(t: Taker, left: int, opp: seq<Entry>, m: Outcome)
    requires |m.hits| <= |opp|
  {
    && m.left == left - Filled(m.hits) && m.left >= 0
    && (forall i :: 0 <= i < |m.hits| ==> m.hits[i].left == left - Filled(m.hits[..i + 1]))
    && (m.left > 0 ==> m.side == opp[|m.hits|..] && (m.side == [] || !Crosses(t, m.side[0].price)))
  }

  ghost predicate Stamped(c: Clock.State, m: Outcome) {
    && (forall i :: 0 <= i < |m.hits| ==> c.last < m.hits[i].ts <= m.clock.last)
    && (forall i, j :: 0 <= i < j < |m.hits| ==> m.hits[i].ts < m.hits[j].ts)
    && c.last <= m.clock.last
  }

  lemma PrefixCons(t: Taker, opp: seq<Entry>, r: Outcome, hit: Hit)
    requires opp != [] && Crosses(t, opp[0].price)
    requires hit.maker == opp[0] && hit.qty == opp[0].remaining > 0
    requires HitsPrefix(t, opp[1..], r) && LeavesRest(opp[1..], r)
    ensures HitsPrefix(t, opp, r.After([hit])) && LeavesRest(opp, r.After([hit]))
  {
  }

  lemma NoHit(t: Taker, left: int, opp: seq<Entry>, c: Clock.State)
    ensures HitsPrefix(t, opp, Outcome([], opp, left, c)) && LeavesRest(opp, Outcome([], opp, left, c))
  {
  }

  lemma LastHit(t: Taker, left: int, opp: seq<Entry>, c: Clock.State, hit: Hit)
    requires opp != [] && Crosses(t, opp[0].price) && hit.maker == opp[0] && 0 < hit.qty < opp[0].remaining
    ensures var m := Outcome([], ShrinkHead(opp, hit.qty), left, c).After([hit]);
            HitsPrefix(t, opp, m) && LeavesRest(opp, m)
  {
  }

  lemma {:induction false} MatchHitsPrefix(wall: Clock.Wall, t: Taker, left: int, opp: seq<Entry>, c: Clock.State)
    requires left >= 0 && Live(opp)
    ensures var m := Match(wall, t, left, opp, c); HitsPrefix(t, opp, m) && LeavesRest(opp, m)
    decreases |opp|
  {
    hide HitsPrefix, LeavesRest, Match, ShrinkHead;
    if left <= 0 || opp == [] || !Crosses(t, opp[0].price) {
      MatchStops(wall, t, left, opp, c);
      NoHit(t, left, opp, c);
    } else {
      MatchStep(wall, t, left, opp, c);
      var qty, c' := Min(left, opp[0].remaining), Clock.Tick(wall, c);
      var hit := Hit(opp[0], qty, left - qty, c'.last);
      if qty == opp[0].remaining {
        MatchHitsPrefix(wall, t, left - qty, opp[1..], c');
        PrefixCons(t, opp, Match(wall, t, left - qty, opp[1..], c'), hit);
      } else {
        MatchStops(wall, t, left - qty, ShrinkHead(opp, qty), c');
        LastHit(t, left - qty, opp, c', hit);
      }
    }
  }

  lemma AccountsCons(t: Taker, left: int, opp: seq<Entry>, r: Outcome, hit: Hit)
    requires opp != [] && hit.left == left - hit.qty
    requires |r.hits| < |opp| && Accounts(t, left - hit.qty, opp[1..], r)
    ensures Accounts(t, left, opp, r.After([hit]))
  {
    var m := r.After([hit]);
    assert m.hits[1..] == r.hits;
    assert opp[1..][|r.hits|..] == opp[|m.hits|..];
    forall i | 0 <= i < |m.hits|
      ensures m.hits[i].left == left - Filled(m.hits[..i + 1])
    {
      assert m.hits[..i + 1][1..] == r.hits[..i];
    }
  }

  lemma AccountsStop(t: Taker, left: int, opp: seq<Entry>, c: Clock.State)
    requires left >= 0 && (left == 0 || opp == [] || !Crosses(t, opp[0].price))
    ensures Accounts(t, left, opp, Outcome([], opp, left, c))
  {
  }

  lemma AccountsLast(t: Taker, left: int, opp: seq<Entry>, side: seq<Entry>, c: Clock.State, hit: Hit)
    requires opp != [] && hit.qty == left && hit.left == 0
    ensures Accounts(t, left, opp, Outcome([], side, 0, c).After([hit]))
  {
  }

  lemma {:induction false} MatchAccounts(wall: Clock.Wall, t: Taker, left: int, opp: seq<Entry>, c: Clock.State)
    requires left >= 0 && Live(opp)
    ensures var m := Match(wall, t, left, opp, c);
            |m.hits| <= |opp| && Accounts(t, left, opp, m)
    decreases |opp|
  {
    hide Accounts, Match, ShrinkHead;
    if left <= 0 || opp == [] || !Crosses(t, opp[0].price) {
      MatchStops(wall, t, left, opp, c);
      AccountsStop(t, left, opp, c);
    } else {
      MatchStep(wall, t, left, opp, c);
      var qty, c' := Min(left, opp[0].remaining), Clock.Tick(wall, c);
      var hit := Hit(opp[0], qty, left - qty, c'.last);
      if qty == opp[0].remaining {
        MatchAccounts(wall, t, left - qty, opp[1..], c');
        AccountsCons(t, left, opp, Match(wall, t, left - qty, opp[1..], c'), hit);
      } else {
        MatchStops(wall, t, left - qty, ShrinkHead(opp, qty), c');
        AccountsLast(t, left, opp, ShrinkHead(opp, qty), c', hit);
      }
    }
  }

  lemma {:induction false} MatchStamped(wall: Clock.Wall, t: Taker, left: int, opp: seq<Entry>, c: Clock.State)
    ensures Stamped(c, Match(wall, t, left, opp, c))
    decreases |opp|
  {
    if left > 0 && opp != [] && Crosses(t, opp[0].price) {
      var qty, c' := Min(left, opp[0].remaining), Clock.Tick(wall, c);
      if qty == opp[0].remaining {
        MatchStamped(wall, t, left - qty, opp[1..], c');
      }
    }
  }

  /** On a sorted side, nothing behind an order that does not cross can cross. */
  lemma {:induction false} NoCrossingBehind(t: Taker, l: seq<Entry>)
    requires Sorted(t.side.Opposite(), l) && Live(l)
    requires l != [] && !Crosses(t, l[0].price)
    ensures CrossingVolume(t, l) == 0
  {
    if |l| > 1 {
      assert EntryAhead(t.side.Opposite(), l[0], l[1]);
      NoCrossingBehind(t, l[1..]);
    }
  }

  /** The order trades exactly as much as the whole side offers it, up to its size. */
  lemma {:induction false} MatchFillsAllItCan(wall: Clock.Wall, t: Taker, left: int, opp: seq<Entry>, c: Clock.State)
    requires left >= 0 && Sorted(t.side.Opposite(), opp) && Live(opp)
    ensures Filled(Match(wall, t, left, opp, c).hits) == Min(left, CrossingVolume(t, opp))
    decreases |opp|
  {
    VolumeNonNegative(t, opp);
    if left > 0 && opp != [] && Crosses(t, opp[0].price) {
      var qty, c' := Min(left, opp[0].remaining), Clock.Tick(wall, c);
      var m := Match(wall, t, left, opp, c);
      VolumeNonNegative(t, opp[1..]);
      if qty == opp[0].remaining {
        MatchFillsAllItCan(wall, t, left - qty, opp[1..], c');
        assert m.hits[1..] == Match(wall, t, left - qty, opp[1..], c').hits;
      } else {
        assert m.hits[1..] == [];
      }
    } else if left > 0 && opp != [] {
      NoCrossingBehind(t, opp);
    }
  }

  lemma {:induction false} VolumeNonNegative(t: Taker, l: seq<Entry>)
    requires Live(l)
    ensures CrossingVolume(t, l) >= 0 && Volume(l) >= 0
  {
    if l != [] {
      VolumeNonNegative(t, l[1..]);
    }
  }

  /** What the side loses is what the order gains. */
  lemma {:induction false} MatchConservesVolume(wall: Clock.Wall, t: Taker, left: int, opp: seq<Entry>, c: Clock.State)
    ensures var m := Match(wall, t, left, opp, c);
            Volume(m.side) + Filled(m.hits) == Volume(opp) && m.left + Filled(m.hits) == left
    decreases |opp|
  {
    if left > 0 && opp != [] && Crosses(t, opp[0].price) {
      var qty, c' := Min(left, opp[0].remaining), Clock.Tick(wall, c);
      var m := Match(wall, t, left, opp, c);
      if qty == opp[0].remaining {
        MatchConservesVolume(wall, t, left - qty, opp[1..], c');
        assert m.hits[1..] == Match(wall, t, left - qty, opp[1..], c').hits;
      } else {
        assert m.hits[1..] == [] && m.side[1..] == opp[1..];
      }
    }
  }

  lemma MatchFacts(wall: Clock.Wall, t: Taker, left: int, opp: seq<Entry>, c: Clock.State)
    requires left >= 0 && Sorted(t.side.Opposite(), opp) && Live(opp)
    ensures var m := Match(wall, t, left, opp, c);
            && HitsPrefix(t, opp, m) && LeavesRest(opp, m) && Accounts(t, left, opp, m) && Stamped(c, m)
            && Filled(m.hits) == Min(left, CrossingVolume(t, opp))
            && Volume(m.side) + Filled(m.hits) == Volume(opp)
  {
    MatchHitsPrefix(wall, t, left, opp, c);
    MatchAccounts(wall, t, left, opp, c);
    MatchStamped(wall, t, left, opp, c);
    MatchFillsAllItCan(wall, t, left, opp, c);
    MatchConservesVolume(wall, t, left, opp, c);
  }

  // ---------- In prices, times and quantities alone ----------

  /** A sorted side has the better price first and, at one price, the earlier entry. */
  lemma SortedMeans(side: Side, l: seq<Entry>)
    ensures Sorted(side, l) <==>
            forall i, j :: 0 <= i < j < |l| ==>
              || (if side.Buy? then l[i].price > l[j].price else l[i].price < l[j].price)
              || (l[i].price == l[j].price && l[i].enteredAt < l[j].enteredAt)
  {
  }

  lemma SideMembers(opp: seq<Entry>, m: Outcome, e: Entry) returns (j: nat)
    requires |m.hits| <= |opp| && LeavesRest(opp, m) && e in m.side
    ensures j < |opp| && |m.hits| - 1 <= j && e.price == opp[j].price && e.enteredAt == opp[j].enteredAt
    ensures e.id == opp[j].id && (j >= |m.hits| ==> e == opp[j])
  {
    var k := |m.hits|;
    var i :| 0 <= i < |m.side| && m.side[i] == e;
    j := if k > 0 && m.hits[k - 1].qty != opp[k - 1].remaining then k - 1 + i else k + i;
  }

  /** Price-time priority, in prices and entry times alone. Earlier hits are at better
      prices, or at the same price entered earlier; nothing left on the side is at a better
      price than an order hit, and what is left at its price entered later or is that order
      itself. */
  lemma PriceTimePriority(wall: Clock.Wall, t: Taker, left: int, opp: seq<Entry>, c: Clock.State)
    requires left >= 0 && Sorted(t.side.Opposite(), opp) && Live(opp)
    ensures var m := Match(wall, t, left, opp, c);
            && |m.hits| <= |opp| && (forall i :: 0 <= i < |m.hits| ==> m.hits[i].maker == opp[i])
            && (forall i, j :: 0 <= i < j < |m.hits| ==>
                  var a, b := m.hits[i].maker, m.hits[j].maker;
                  || (if t.side.Buy? then a.price < b.price else a.price > b.price)
                  || (a.price == b.price && a.enteredAt < b.enteredAt))
            && (forall i, e :: 0 <= i < |m.hits| && e in m.side ==>
                  var a := m.hits[i].maker;
                  || (if t.side.Buy? then a.price < e.price else a.price > e.price)
                  || (a.price == e.price && a.enteredAt < e.enteredAt)
                  || (a.price == e.price && a.enteredAt == e.enteredAt && a.id == e.id))
  {
    hide Match, CrossingVolume, Accounts, Filled, Volume, Crosses, Live;
    var m := Match(wall, t, left, opp, c);
    MatchHitsPrefix(wall, t, left, opp, c);
    forall i, e | 0 <= i < |m.hits| && e in m.side
      ensures var a := m.hits[i].maker;
              || (if t.side.Buy? then a.price < e.price else a.price > e.price)
              || (a.price == e.price && a.enteredAt < e.enteredAt)
              || (a.price == e.price && a.enteredAt == e.enteredAt && a.id == e.id)
    {
      var j := SideMembers(opp, m, e);
      assert i < j ==> EntryAhead(t.side.Opposite(), opp[i], opp[j]);
    }
  }

  /** A limit order never trades beyond its limit and stops only when filled or when every
      price left is beyond it; a market order trades at any price and stops only when filled
      or when nothing is left. Either gets all that is on offer to it, up to its size. */
  lemma LimitsRespected(wall: Clock.Wall, t: Taker, left: int, opp: seq<Entry>, c: Clock.State)
    requires left >= 0 && Sorted(t.side.Opposite(), opp) && Live(opp)
    ensures var m := Match(wall, t, left, opp, c);
            && (t.typ.Limit? ==> forall i :: 0 <= i < |m.hits| ==>
                  if t.side.Buy? then m.hits[i].maker.price <= t.price else m.hits[i].maker.price >= t.price)
            && (t.typ.Limit? && m.left > 0 ==> forall e :: e in m.side ==>
                  if t.side.Buy? then e.price > t.price else e.price < t.price)
            && (t.typ.Market? && m.left > 0 ==> m.side == [])
            && m.left == left - Min(left, CrossingVolume(t, opp))
            && (t.typ.Market? ==> Filled(m.hits) == Min(left, Volume(opp)))
  {
    hide Match, CrossingVolume, Stamped, LeavesRest, Sorted, Filled, Volume;
    var m := Match(wall, t, left, opp, c);
    MatchFacts(wall, t, left, opp, c);
    if t.typ.Market? {
      MarketReachesAll(t, opp);
    }
    if m.left > 0 && m.side != [] {
      BeyondReach(t, opp, |m.hits|);
    }
  }

  /** On a sorted side, nothing behind an order that is out of reach is in reach. */
  lemma BeyondReach(t: Taker, l: seq<Entry>, k: nat)
    requires Sorted(t.side.Opposite(), l) && k < |l| && !Crosses(t, l[k].price)
    ensures forall e :: e in l[k..] ==> !Crosses(t, e.price)
  {
  }
}
