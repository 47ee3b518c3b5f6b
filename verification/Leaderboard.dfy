/** The score-to-leaderboard-to-snapshot pipeline: the atomic update script, the ranked
    read of the sorted set, and the two readers that build the listing from it. */
module Leaderboard {
  import opened Options
  import opened Scoring
  import Chains

  datatype Entry = Entry(
    submission: string, team: string, score: real, m: Metrics, ordersSent: int, rejects: int, durationMs: int,
    at: string, rank: int)

  /** A stored detail either decodes to an entry or does not. */
  datatype Blob = Good(entry: Entry) | Garbage

  /** The sorted set and the details hash. */
  datatype Store = Store(ranked: map<string, real>, details: map<string, Blob>)

  function EntryOf(c: Ceilings, e: Event): Entry
    requires Scorable(c, e.m)
  {
    Entry(e.submission, e.team, ComputeScore(c, e.m), e.m.(correctness := Clamp(e.m.correctness)),
          e.ordersSent, e.rejects, e.durationMs, e.at, 0)
  }

  /** The update script: ZADD of the score times 1000 and HSET of the entry, atomically. */
  function Update(c: Ceilings, s: Store, e: Event): Store
    requires Scorable(c, e.m)
  {
    Store(s.ranked[e.submission := ComputeScore(c, e.m) * 1000.0], s.details[e.submission := Good(EntryOf(c, e))])
  }

  /** An update whose score is not a number cannot be encoded and is never applied. */
  predicate AllScorable(c: Ceilings, es: seq<Event>) {
    forall e :: e in es ==> Scorable(c, e.m)
  }

  function Updates(c: Ceilings, es: seq<Event>): Store
    requires AllScorable(c, es)
  {
    if es == [] then Store(map[], map[]) else Update(c, Updates(c, es[..|es| - 1]), es[|es| - 1])
  }

  // ---------- ZREVRANGE ----------

  predicate LexLess(a: string, b: string) {
    if a == [] then b != [] else b != [] && (a[0] < b[0] || (a[0] == b[0] && LexLess(a[1..], b[1..])))
  }

  /** Higher score first; equal scores in reverse order of the member. */
  predicate RanksBefore(a: (string, real), b: (string, real)) {
    a.1 > b.1 || (a.1 == b.1 && LexLess(b.0, a.0))
  }

  ghost predicate Ordered(ms: seq<(string, real)>) {
    forall i, j :: 0 <= i < j < |ms| ==> RanksBefore(ms[i], ms[j])
  }

  /** ms is the whole sorted set, best first. */
  ghost predicate RevRange(ranked: map<string, real>, ms: seq<(string, real)>) {
    && Ordered(ms)
    && (forall x :: x in ms <==> x.0 in ranked && x.1 == ranked[x.0])
  }

  /** b is a proper extension of a, or greater at the first place where they differ. */
  ghost predicate DiffersUp(a: string, b: string, k: nat) {
    k <= |a| && k < |b| && a[..k] == b[..k] && (k == |a| || a[k] < b[k])
  }

  lemma {:induction false} LexMeans(a: string, b: string)
    ensures LexLess(a, b) <==> exists k: nat :: DiffersUp(a, b, k)
  {
    if a != [] && b != [] {
      LexMeans(a[1..], b[1..]);
      if LexLess(a, b) && a[0] == b[0] {
        var k: nat :| DiffersUp(a[1..], b[1..], k);
        assert a[..k + 1] == [a[0]] + a[1..][..k] && b[..k + 1] == [b[0]] + b[1..][..k];
        assert DiffersUp(a, b, k + 1);
      } else if LexLess(a, b) {
        assert DiffersUp(a, b, 0);
      }
      if k: nat :| DiffersUp(a, b, k) {
        if k > 0 {
          assert a[..k][0] == b[..k][0] && a[1..][..k - 1] == a[..k][1..] && b[1..][..k - 1] == b[..k][1..];
          assert DiffersUp(a[1..], b[1..], k - 1);
        }
      }
    } else if b != [] {
      assert DiffersUp(a, b, 0);
    }
  }

  lemma {:induction false} LexAsymmetric(a: string, b: string)
    ensures !(LexLess(a, b) && LexLess(b, a))
  {
    if a != [] && b != [] {
      LexAsymmetric(a[1..], b[1..]);
    }
  }

  /** The ranked read is determined by the sorted set. */
  lemma OrderedUnique(a: seq<(string, real)>, b: seq<(string, real)>)
    requires Ordered(a) && Ordered(b) && forall x :: x in a <==> x in b
    ensures a == b
  {
    forall x: (string, real), y: (string, real) | RanksBefore(x, y)
      ensures !RanksBefore(y, x)
    {
      LexAsymmetric(x.0, y.0);
    }
    hide RanksBefore;
    Chains.ChainUnique(RanksBefore, a, b);
  }

  // ---------- Readers ----------

  /** `strings.SplitN(member, ":", 2)`: before the first colon, and after it if any. */
  function SplitId(member: string): (id: string)
    ensures ':' !in member ==> id == member
    ensures ':' !in id
  {
    if member == [] || member[0] == ':' then [] else [member[0]] + SplitId(member[1..])
  }

  function SplitTeam(member: string): string {
    if member == [] then [] else if member[0] == ':' then member[1..] else SplitTeam(member[1..])
  }

  function Minimal(member: string, score: real, rank: int): Entry {
    Entry(SplitId(member), SplitTeam(member), score / 1000.0, Metrics(0, 0, 0, 0.0, 0.0), 0, 0, 0, "", rank)
  }

  /** The listing for the first n members. */
  function Listing(ms: seq<(string, real)>, details: map<string, Blob>, n: nat): seq<Entry>
    requires n <= |ms|
  {
    if n == 0 then []
    else
      var (member, score) := ms[n - 1];
      var id := SplitId(member);
      Listing(ms, details, n - 1)
      + (if id !in details then [Minimal(member, score, n)]
         else if details[id].Garbage? then []
         else [details[id].entry.(rank := n)])
  }

  /** `leaderboardHandler`: one detail lookup per member. */
  method LeaderboardHandler(ms: seq<(string, real)>, details: map<string, Blob>) returns (entries: seq<Entry>)
    ensures entries == Listing(ms, details, |ms|)
  {
    entries := [];
    for i := 0 to |ms|
      invariant entries == Listing(ms, details, i)
    {
      var id := SplitId(ms[i].0);
      if id !in details {
        entries := entries + [Minimal(ms[i].0, ms[i].1, i + 1)];
        continue;
      }
      if details[id].Garbage? {
        continue;
      }
      entries := entries + [details[id].entry.(rank := i + 1)];
    }
  }

  datatype Reply = Nil | Bytes(blob: Blob)

  /** `buildSnapshot`: the lookups are pipelined first, the entries built afterwards. */
  method BuildSnapshot(ms: seq<(string, real)>, details: map<string, Blob>) returns (entries: seq<Entry>)
    ensures entries == Listing(ms, details, |ms|)
  {
    entries := [];
    if |ms| == 0 {
      return;
    }
    var cmds: seq<Reply> := [];
    for i := 0 to |ms|
      invariant |cmds| == i
      invariant forall k :: 0 <= k < i ==>
                  cmds[k] == var id := SplitId(ms[k].0); if id in details then Bytes(details[id]) else Nil
    {
      var id := SplitId(ms[i].0);
      cmds := cmds + [if id in details then Bytes(details[id]) else Nil];
    }
    for i := 0 to |ms|
      invariant entries == Listing(ms, details, i)
    {
      if cmds[i].Nil? {
        entries := entries + [Minimal(ms[i].0, ms[i].1, i + 1)];
        continue;
      }
      if cmds[i].blob.Garbage? {
        continue;
      }
      entries := entries + [cmds[i].blob.entry.(rank := i + 1)];
    }
  }

  // ---------- Agreement ----------

  /** The last update of one submission. */
  function LastOf(es: seq<Event>, id: string): (r: Option<Event>)
    ensures r.Some? ==> r.value in es && r.value.submission == id
    ensures r.None? ==> forall e :: e in es ==> e.submission != id
  {
    if es == [] then None
    else if es[|es| - 1].submission == id then Some(es[|es| - 1])
    else LastOf(es[..|es| - 1], id)
  }

  /** The sorted set and the hash have the same keys, each holding the last update. */
  lemma {:induction false} StoreHoldsLast(c: Ceilings, es: seq<Event>, id: string)
    requires AllScorable(c, es)
    ensures var s, last := Updates(c, es), LastOf(es, id);
            && (id in s.ranked <==> last.Some?) && (id in s.details <==> last.Some?)
            && (last.Some? ==>
                  && s.ranked[id] == ComputeScore(c, last.value.m) * 1000.0
                  && s.details[id] == Good(EntryOf(c, last.value)))
  {
    if es != [] {
      StoreHoldsLast(c, es[..|es| - 1], id);
    }
  }

  predicate ColonFree(es: seq<Event>) {
    forall i :: 0 <= i < |es| ==> ':' !in es[i].submission
  }

  /** Position i of the listing is the last update of the i-th ranked submission. */
  ghost predicate ListsLast(c: Ceilings, es: seq<Event>, ms: seq<(string, real)>, l: seq<Entry>)
    requires AllScorable(c, es)
  {
    && |l| == |ms|
    && forall i :: 0 <= i < |ms| ==>
         var last := LastOf(es, ms[i].0);
         last.Some? && l[i] == EntryOf(c, last.value).(rank := i + 1) && l[i].submission == ms[i].0
  }

  /** An entry shows this event, field by field, at this rank. */
  ghost predicate Shows(c: Ceilings, x: Entry, e: Event, rank: int)
    requires Scorable(c, e.m)
  {
    && x.submission == e.submission && x.team == e.team && x.score == ComputeScore(c, e.m) && x.rank == rank
    && x.m.p50 == e.m.p50 && x.m.p90 == e.m.p90 && x.m.p99 == e.m.p99 && x.m.tps == e.m.tps
    && (e.m.correctness < 0.0 ==> x.m.correctness == 0.0) && (e.m.correctness > 1.0 ==> x.m.correctness == 1.0)
    && (0.0 <= e.m.correctness <= 1.0 ==> x.m.correctness == e.m.correctness)
    && x.ordersSent == e.ordersSent && x.rejects == e.rejects && x.durationMs == e.durationMs && x.at == e.at
  }

  lemma ListedMember(c: Ceilings, es: seq<Event>, ms: seq<(string, real)>, i: nat)
    requires AllScorable(c, es) && ColonFree(es) && RevRange(Updates(c, es).ranked, ms) && i < |ms|
    ensures var id, d := ms[i].0, Updates(c, es).details;
            && SplitId(id) == id && LastOf(es, id).Some? && LastOf(es, id).value.submission == id
            && id in d && d[id] == Good(EntryOf(c, LastOf(es, id).value))
  {
    assert ms[i] in ms;
    StoreHoldsLast(c, es, ms[i].0);
    hide ComputeScore, Updates;
    var k :| 0 <= k < |es| && es[k] == LastOf(es, ms[i].0).value;
  }

  lemma {:induction false} ListingLists(c: Ceilings, es: seq<Event>, ms: seq<(string, real)>, n: nat)
    requires AllScorable(c, es) && ColonFree(es) && RevRange(Updates(c, es).ranked, ms) && n <= |ms|
    ensures ListsLast(c, es, ms[..n], Listing(ms, Updates(c, es).details, n))
  {
    hide ComputeScore, Updates, RevRange, SplitId, LastOf;
    if n > 0 {
      ListingLists(c, es, ms, n - 1);
      ListedMember(c, es, ms, n - 1);
      assert ms[..n] == ms[..n - 1] + [ms[n - 1]];
    }
  }

  /** After any sequence of applied updates with colon-free ids, any two ranked reads give
      both readers the same listing: one entry per submission, carrying its last update,
      ranked 1 to n by non-increasing score. */
  lemma LeaderboardAgreement(c: Ceilings, es: seq<Event>, ms: seq<(string, real)>, ms': seq<(string, real)>)
    requires AllScorable(c, es) && ColonFree(es)
    requires RevRange(Updates(c, es).ranked, ms) && RevRange(Updates(c, es).ranked, ms')
    ensures var d := Updates(c, es).details;
            var l := Listing(ms, d, |ms|);
            && l == Listing(ms', d, |ms'|) && |l| == |ms|
            && (forall i :: 0 <= i < |l| ==>
                  LastOf(es, ms[i].0).Some? && Shows(c, l[i], LastOf(es, ms[i].0).value, i + 1))
            && (forall i, j :: 0 <= i < j < |l| ==>
                  && l[i].score >= l[j].score && l[i].submission != l[j].submission
                  && (l[i].score == l[j].score ==> LexLess(l[j].submission, l[i].submission)))
            && (forall e :: e in es ==> exists i :: 0 <= i < |l| && l[i].submission == e.submission)
  {
    hide Listing, Updates, ComputeScore, LastOf, ColonFree, RanksBefore;
    OrderedUnique(ms, ms');
    ListingLists(c, es, ms, |ms|);
    assert ms[..|ms|] == ms;
    var l := Listing(ms, Updates(c, es).details, |ms|);
    forall i | 0 <= i < |l|
      ensures LastOf(es, ms[i].0).Some? && Shows(c, l[i], LastOf(es, ms[i].0).value, i + 1)
    {
      assert l[i] == EntryOf(c, LastOf(es, ms[i].0).value).(rank := i + 1);
    }
    forall i, j | 0 <= i < j < |l|
      ensures l[i].score >= l[j].score && l[i].submission != l[j].submission
      ensures l[i].score == l[j].score ==> LexLess(l[j].submission, l[i].submission)
    {
      RankedPair(c, es, ms, i, j);
    }
    forall e | e in es
      ensures exists i :: 0 <= i < |l| && l[i].submission == e.submission
    {
      var i := RankOf(c, es, ms, e);
      assert l[i].submission == e.submission;
    }
  }

  /** Every submission with an update is ranked. */
  lemma RankOf(c: Ceilings, es: seq<Event>, ms: seq<(string, real)>, e: Event) returns (i: nat)
    requires AllScorable(c, es) && RevRange(Updates(c, es).ranked, ms) && e in es
    ensures i < |ms| && ms[i].0 == e.submission
  {
    StoreHoldsLast(c, es, e.submission);
    var x := (e.submission, Updates(c, es).ranked[e.submission]);
    assert x in ms;
    i :| 0 <= i < |ms| && ms[i] == x;
  }

  lemma RankedPair(c: Ceilings, es: seq<Event>, ms: seq<(string, real)>, i: nat, j: nat)
    requires AllScorable(c, es) && RevRange(Updates(c, es).ranked, ms) && i < j < |ms|
    ensures LastOf(es, ms[i].0).Some? && LastOf(es, ms[j].0).Some? && ms[i].0 != ms[j].0
    ensures var a, b := ComputeScore(c, LastOf(es, ms[i].0).value.m), ComputeScore(c, LastOf(es, ms[j].0).value.m);
            a >= b && (a == b ==> LexLess(ms[j].0, ms[i].0))
  {
    assert ms[i] in ms && ms[j] in ms;
    StoreHoldsLast(c, es, ms[i].0);
    StoreHoldsLast(c, es, ms[j].0);
    hide ComputeScore, Updates;
    assert RanksBefore(ms[i], ms[j]);
    LexAsymmetric(ms[i].0, ms[i].0);
  }

  /** Dominance: a submission whose last update is at least as good on every metric and
      whose score differs is listed strictly above the other, in every snapshot. */
  lemma Dominance(c: Ceilings, es: seq<Event>, ms: seq<(string, real)>, i: nat, j: nat)
    requires AllScorable(c, es) && c.tps >= 0.0 && ColonFree(es)
    requires RevRange(Updates(c, es).ranked, ms) && i < |ms| && j < |ms|
    ensures LastOf(es, ms[i].0).Some? && LastOf(es, ms[j].0).Some?
    ensures var a, b := LastOf(es, ms[i].0).value.m, LastOf(es, ms[j].0).value.m;
            var l := Listing(ms, Updates(c, es).details, |ms|);
            |l| == |ms| &&
            (AtLeastAsGood(a, b) && ComputeScore(c, a) != ComputeScore(c, b) ==>
               l[i].rank < l[j].rank && l[i].score > l[j].score)
  {
    hide ComputeScore, Listing, Updates, AtLeastAsGood, RevRange, ColonFree, LastOf;
    EntryAt(c, es, ms, i);
    EntryAt(c, es, ms, j);
    var a, b := LastOf(es, ms[i].0).value.m, LastOf(es, ms[j].0).value.m;
    if AtLeastAsGood(a, b) && ComputeScore(c, a) != ComputeScore(c, b) {
      ScoreMonotone(c, a, b);
      if j < i {
        RankedPair(c, es, ms, j, i);
      }
    }
  }

  lemma EntryAt(c: Ceilings, es: seq<Event>, ms: seq<(string, real)>, i: nat)
    requires AllScorable(c, es) && ColonFree(es) && RevRange(Updates(c, es).ranked, ms) && i < |ms|
    ensures var l := Listing(ms, Updates(c, es).details, |ms|);
            && |l| == |ms| && LastOf(es, ms[i].0).Some?
            && l[i].rank == i + 1 && l[i].score == ComputeScore(c, LastOf(es, ms[i].0).value.m)
  {
    hide ComputeScore, Listing, Updates, RevRange, ColonFree, LastOf;
    ListingLists(c, es, ms, |ms|);
    assert ms[..|ms|] == ms;
  }

  lemma {:induction false} SplitIdExact(member: string)
    ensures SplitId(member) == member <==> ':' !in member
  {
  }

  /** A member with a colon is its id, the colon, and its team. */
  lemma {:induction false} SplitJoins(member: string)
    ensures ':' in member ==> member == SplitId(member) + ":" + SplitTeam(member)
    ensures ':' !in member ==> SplitId(member) == member && SplitTeam(member) == ""
  {
    if member != [] && member[0] != ':' {
      SplitJoins(member[1..]);
      assert member == [member[0]] + member[1..];
    }
  }

  /** Member k has no stored detail, or one that decodes. */
  predicate Listed(ms: seq<(string, real)>, details: map<string, Blob>, k: nat)
    requires k < |ms|
  {
    SplitId(ms[k].0) in details ==> details[SplitId(ms[k].0)].Good?
  }

  function CountListed(ms: seq<(string, real)>, details: map<string, Blob>, n: nat): nat
    requires n <= |ms|
  {
    if n == 0 then 0 else CountListed(ms, details, n - 1) + (if Listed(ms, details, n - 1) then 1 else 0)
  }

  /** Whatever is stored: members whose detail does not decode are left out, everyone else is
      listed in order at the rank of the ranked read, with the stored detail, or without one
      with id, team and score taken from the member itself. */
  lemma {:induction false} ListingExact(ms: seq<(string, real)>, details: map<string, Blob>, n: nat, k: nat)
    requires k < n <= |ms|
    ensures |Listing(ms, details, n)| == CountListed(ms, details, n)
    ensures CountListed(ms, details, k + 1) <= CountListed(ms, details, n)
    ensures Listed(ms, details, k) ==>
              var x, id := Listing(ms, details, n)[CountListed(ms, details, k)], SplitId(ms[k].0);
              && x.rank == k + 1
              && (id in details ==> x == details[id].entry.(rank := k + 1))
              && (id !in details ==>
                    && x.submission == id && x.team == SplitTeam(ms[k].0) && x.score == ms[k].1 / 1000.0
                    && x.m == Metrics(0, 0, 0, 0.0, 0.0) && x.ordersSent == x.rejects == x.durationMs == 0
                    && x.at == "")
  {
    hide SplitId, SplitTeam;
    CountIsLength(ms, details, n - 1);
    if k < n - 1 {
      ListingExact(ms, details, n - 1, k);
    }
  }

  lemma {:induction false} CountIsLength(ms: seq<(string, real)>, details: map<string, Blob>, n: nat)
    requires n <= |ms|
    ensures |Listing(ms, details, n)| == CountListed(ms, details, n)
  {
    hide SplitId, SplitTeam;
    if n > 0 {
      CountIsLength(ms, details, n - 1);
    }
  }

  /** Every listed entry is filed under its member up to the first colon, so an entry names
      its own submission exactly when the submission id has no colon. */
  lemma {:induction false} EntryNamesPrefix(c: Ceilings, es: seq<Event>, ms: seq<(string, real)>, n: nat)
    requires AllScorable(c, es) && n <= |ms|
    ensures var l := Listing(ms, Updates(c, es).details, n);
            && |l| == n
            && forall i :: 0 <= i < n ==>
                 && l[i].submission == SplitId(ms[i].0) && l[i].rank == i + 1
                 && (l[i].submission == ms[i].0 <==> ':' !in ms[i].0)
  {
    if n > 0 {
      EntryNamesPrefix(c, es, ms, n - 1);
      StoreHoldsLast(c, es, SplitId(ms[n - 1].0));
      SplitIdExact(ms[n - 1].0);
    }
  }
}
