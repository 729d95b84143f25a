/** The timeline a live screen holds: entries merged by `seq` and cut to the newest 500.
    Follows `sortBySeq`, `bounded` and `merge` of frontend/src/domain/live.ts. */
module LiveTimeline {
  import opened Sorting

  const TIMELINE_LIMIT := 500

  /** `at` is the entry's `seq`, its place in the server's log; `text` stands for the rest of it. */
  datatype Entry = Entry(at: int, text: string)

  function SeqOf(e: Entry): int { e.at }

  /** What a collection of entries says about each `seq`: the last word wins. */
  function Latest(es: seq<Entry>): map<int, Entry> {
    if es == [] then map[] else Latest(es[..|es| - 1])[es[|es| - 1].at := es[|es| - 1]]
  }

  /** Some entry of `t`, at position `from` or later, has seq `k`. */
  ghost predicate HeldFrom(t: seq<Entry>, from: nat, k: int) {
    exists i :: from <= i < |t| && t[i].at == k
  }

  ghost predicate Holds(t: seq<Entry>, k: int) {
    HeldFrom(t, 0, k)
  }

  ghost predicate Rising(t: seq<Entry>) {
    forall i, j | 0 <= i < j < |t| :: t[i].at < t[j].at
  }

  /** `t` is exactly the newest 500 entries of `all`, in `seq` order: it repeats
      nothing, invents nothing, and leaves out only what 500 newer entries push out. */
  ghost predicate IsNewest(t: seq<Entry>, all: map<int, Entry>) {
    && |t| <= 500
    && Rising(t)
    && (forall i | 0 <= i < |t| :: t[i].at in all && all[t[i].at] == t[i])
    && (forall k | k in all :: Holds(t, k) || (|t| == 500 && k < t[0].at))
  }

  // ---------------------------------------------------------------- the source's functions

  function Bounded(es: seq<Entry>): seq<Entry> {
    if |es| > TIMELINE_LIMIT then es[|es| - TIMELINE_LIMIT..] else es
  }

  /** `Map.set`: a key already present keeps its place and takes the new value. */
  function MapSet(m: seq<Entry>, e: Entry): seq<Entry> {
    if m == [] then [e]
    else if m[0].at == e.at then [e] + m[1..]
    else [m[0]] + MapSet(m[1..], e)
  }

  function MapSetAll(m: seq<Entry>, es: seq<Entry>): seq<Entry> {
    if es == [] then m else MapSet(MapSetAll(m, es[..|es| - 1]), es[|es| - 1])
  }

  function Merged(existing: seq<Entry>, incoming: seq<Entry>): seq<Entry> {
    Bounded(SortBy(SeqOf, MapSetAll(MapSetAll([], existing), incoming)))
  }

  /** The two loops of `merge`. What the value they compute means is `MergedIsNewest`. */
  method Merge(existing: seq<Entry>, incoming: seq<Entry>) returns (r: seq<Entry>)
    ensures r == Merged(existing, incoming)
    ensures IsNewest(r, Latest(existing) + Latest(incoming))
  {
    var bySeq: seq<Entry> := [];
    for i := 0 to |existing|
      invariant bySeq == MapSetAll([], existing[..i])
    {
      bySeq := MapSet(bySeq, existing[i]);
      assert existing[..i + 1][..i] == existing[..i];
    }
    assert existing[..|existing|] == existing;
    var base := bySeq;
    for i := 0 to |incoming|
      invariant bySeq == MapSetAll(base, incoming[..i])
    {
      bySeq := MapSet(bySeq, incoming[i]);
      assert incoming[..i + 1][..i] == incoming[..i];
    }
    assert incoming[..|incoming|] == incoming;
    r := Bounded(SortBy(SeqOf, bySeq));
    MergedIsNewest(existing, incoming);
  }

  // ---------------------------------------------------------------- the Map

  ghost predicate NoSeqTwice(m: seq<Entry>) {
    forall i, j | 0 <= i < j < |m| :: m[i].at != m[j].at
  }

  /** The insertion-ordered list `m` is the dictionary `d`. */
  ghost predicate Represents(m: seq<Entry>, d: map<int, Entry>) {
    && NoSeqTwice(m)
    && (forall i | 0 <= i < |m| :: m[i].at in d && d[m[i].at] == m[i])
    && (forall k | k in d :: Holds(m, k))
  }

  lemma {:induction false} MapSetAt(m: seq<Entry>, e: Entry) returns (r: seq<Entry>)
    requires NoSeqTwice(m)
    ensures r == MapSet(m, e) && |m| <= |r| <= |m| + 1
    ensures forall i | 0 <= i < |m| :: r[i] == if m[i].at == e.at then e else m[i]
    ensures |r| == |m| + 1 ==> r[|m|] == e && forall i | 0 <= i < |m| :: m[i].at != e.at
    ensures |r| == |m| ==> exists i :: 0 <= i < |m| && m[i].at == e.at && r[i] == e
  {
    r := MapSet(m, e);
    if m != [] && m[0].at != e.at {
      var tail := MapSetAt(m[1..], e);
      forall i | 0 <= i < |m| ensures r[i] == if m[i].at == e.at then e else m[i] {
        assert i > 0 ==> r[i] == tail[i - 1] && m[i] == m[1..][i - 1];
      }
      if |tail| == |m[1..]| {
        var i :| 0 <= i < |m[1..]| && m[1..][i].at == e.at && tail[i] == e;
        assert m[i + 1].at == e.at && r[i + 1] == e;
      } else {
        forall i | 0 <= i < |m| ensures m[i].at != e.at {
          assert i > 0 ==> m[i] == m[1..][i - 1];
        }
      }
    }
  }

  lemma MapSetHolds(m: seq<Entry>, e: Entry, k: int)
    requires NoSeqTwice(m)
    ensures Holds(m, k) || k == e.at ==> Holds(MapSet(m, e), k)
  {
    var r := MapSetAt(m, e);
    if k == e.at {
      assert |r| == |m| + 1 ==> r[|m|].at == k;
    } else if Holds(m, k) {
      var i :| 0 <= i < |m| && m[i].at == k;
      assert r[i].at == k;
    }
  }

  lemma MapSetRepresents(m: seq<Entry>, d: map<int, Entry>, e: Entry)
    requires Represents(m, d)
    ensures Represents(MapSet(m, e), d[e.at := e])
  {
    var r := MapSetAt(m, e);
    var d' := d[e.at := e];
    forall i, j | 0 <= i < j < |r| ensures r[i].at != r[j].at {
      assert r[i].at == m[i].at;
      assert j < |m| ==> r[j].at == m[j].at;
    }
    forall i | 0 <= i < |r| ensures r[i].at in d' && d'[r[i].at] == r[i] {
      assert i < |m| ==> m[i].at in d && d[m[i].at] == m[i];
    }
    forall k | k in d' ensures Holds(r, k) {
      MapSetHolds(m, e, k);
    }
  }

  lemma {:induction false} MapSetAllRepresents(m: seq<Entry>, d: map<int, Entry>, es: seq<Entry>)
    requires Represents(m, d)
    ensures Represents(MapSetAll(m, es), d + Latest(es))
  {
    if es == [] {
      assert d + Latest(es) == d;
    } else {
      var front, last := es[..|es| - 1], es[|es| - 1];
      MapSetAllRepresents(m, d, front);
      MapSetRepresents(MapSetAll(m, front), d + Latest(front), last);
      assert d + Latest(es) == (d + Latest(front))[last.at := last];
    }
  }

  // ---------------------------------------------------------------- merging keeps the newest

  lemma SortedRepresents(m: seq<Entry>, d: map<int, Entry>)
    requires Represents(m, d)
    ensures Represents(SortBy(SeqOf, m), d) && Rising(SortBy(SeqOf, m))
  {
    var r := SortBy(SeqOf, m);
    assert Distinct(SeqOf, m) by {
      forall i, j | 0 <= i < j < |m| ensures SeqOf(m[i]) != SeqOf(m[j]) {
        assert m[i].at != m[j].at;
      }
    }
    SortDistinct(SeqOf, m);
    SortMembers(SeqOf, m);
    forall i, j | 0 <= i < j < |r| ensures r[i].at < r[j].at {
      assert SeqOf(r[i]) < SeqOf(r[j]);
    }
    forall i | 0 <= i < |r| ensures r[i].at in d && d[r[i].at] == r[i] {
      assert r[i] in m;
    }
    forall k | k in d ensures Holds(r, k) {
      var i :| 0 <= i < |m| && m[i].at == k;
      assert m[i] in r;
    }
  }

  lemma CutHolds(s: seq<Entry>, k: int)
    requires Rising(s) && Holds(s, k)
    ensures var t := Bounded(s);
            Holds(t, k) || (|t| == TIMELINE_LIMIT && k < t[0].at)
  {
    var t := Bounded(s);
    var cut := |s| - |t|;
    var i :| 0 <= i < |s| && s[i].at == k;
    if cut <= i {
      assert t[i - cut].at == k;
    }
  }

  lemma CutIsNewest(s: seq<Entry>, d: map<int, Entry>)
    requires Represents(s, d) && Rising(s)
    ensures IsNewest(Bounded(s), d)
  {
    var t := Bounded(s);
    var cut := |s| - |t|;
    forall i | 0 <= i < |t| ensures t[i] == s[cut + i] {}
    assert Rising(t);
    forall k | k in d ensures Holds(t, k) || (|t| == TIMELINE_LIMIT && k < t[0].at) {
      CutHolds(s, k);
    }
  }

  /** Merging two collections holds exactly the newest entries of both together. */
  lemma MergedIsNewest(existing: seq<Entry>, incoming: seq<Entry>)
    ensures IsNewest(Merged(existing, incoming), Latest(existing) + Latest(incoming))
  {
    MapSetAllRepresents([], map[], existing);
    assert map[] + Latest(existing) == Latest(existing);
    MapSetAllRepresents(MapSetAll([], existing), Latest(existing), incoming);
    var m := MapSetAll(MapSetAll([], existing), incoming);
    SortedRepresents(m, Latest(existing) + Latest(incoming));
    CutIsNewest(SortBy(SeqOf, m), Latest(existing) + Latest(incoming));
  }

  /** Of rising numbers all found from position `from` on, the `k`-th sits at `from + k` or later. */
  lemma {:induction false} Pigeonhole(a: seq<Entry>, b: seq<Entry>, from: nat, k: nat) returns (j: nat)
    requires Rising(a) && Rising(b)
    requires forall i | 0 <= i < |a| :: HeldFrom(b, from, a[i].at)
    requires k < |a|
    ensures from + k <= j < |b| && b[j].at == a[k].at
  {
    assert HeldFrom(b, from, a[k].at);
    j :| from <= j < |b| && b[j].at == a[k].at;
    if k > 0 {
      var h := Pigeonhole(a, b, from, k - 1);
    }
  }

  lemma NoRoomFor(a: seq<Entry>, b: seq<Entry>, from: nat)
    requires Rising(a) && Rising(b)
    requires forall i | 0 <= i < |a| :: HeldFrom(b, from, a[i].at)
    ensures |a| == 0 || from + |a| <= |b|
  {
    if |a| > 0 {
      var j := Pigeonhole(a, b, from, |a| - 1);
    }
  }

  /** The newest entries of a collection are unique. */
  lemma NewestIsUnique(t: seq<Entry>, u: seq<Entry>, all: map<int, Entry>)
    requires IsNewest(t, all) && IsNewest(u, all)
    ensures t == u
  {
    forall e ensures e in t <==> e in u {
      if e in t {
        HeldByOneIsHeldByBoth(t, u, all, e);
      }
      if e in u {
        HeldByOneIsHeldByBoth(u, t, all, e);
      }
    }
    assert Increasing(SeqOf, t) && Increasing(SeqOf, u);
    IncreasingIsUnique(SeqOf, t, u);
  }

  lemma HeldByOneIsHeldByBoth(t: seq<Entry>, u: seq<Entry>, all: map<int, Entry>, e: Entry)
    requires IsNewest(t, all) && IsNewest(u, all)
    requires e in t
    ensures e in u
  {
    var i :| 0 <= i < |t| && t[i] == e;
    if |u| == TIMELINE_LIMIT && e.at < u[0].at {
      forall n | 0 <= n < |u| ensures HeldFrom(t, i + 1, u[n].at) {
        assert t[0].at <= t[i].at && u[0].at <= u[n].at;
        var j :| 0 <= j < |t| && t[j].at == u[n].at;
      }
      NoRoomFor(u, t, i + 1);
    } else {
      var j :| 0 <= j < |u| && u[j].at == e.at;
      assert u[j] == all[e.at] == e;
    }
  }

  /** Merging into the newest entries of everything so far gives the newest entries of
      everything now: what the 500-entry bound dropped earlier is never missed later. */
  lemma MergeKeepsNewest(t: seq<Entry>, all: map<int, Entry>, incoming: seq<Entry>)
    requires IsNewest(t, all)
    ensures IsNewest(Merged(t, incoming), all + Latest(incoming))
  {
    var r, now := Merged(t, incoming), all + Latest(incoming);
    MergedIsNewest(t, incoming);
    LatestOfDistinct(t);
    forall k | k in now ensures Holds(r, k) || (|r| == TIMELINE_LIMIT && k < r[0].at) {
      if k !in Latest(t) + Latest(incoming) {
        FullStaysFull(t, r, Latest(t) + Latest(incoming));
      }
    }
  }

  lemma FullStaysFull(t: seq<Entry>, r: seq<Entry>, d: map<int, Entry>)
    requires Rising(t) && |t| == TIMELINE_LIMIT
    requires forall i | 0 <= i < |t| :: t[i].at in d
    requires IsNewest(r, d)
    ensures |r| == TIMELINE_LIMIT && t[0].at <= r[0].at
  {
    if |r| < TIMELINE_LIMIT {
      assert forall i | 0 <= i < |t| :: Holds(r, t[i].at);
      NoRoomFor(t, r, 0);
    } else if r[0].at < t[0].at {
      forall i | 0 <= i < |t| ensures HeldFrom(r, 1, t[i].at) {
        assert t[0].at <= t[i].at;
        assert Holds(r, t[i].at);
      }
      NoRoomFor(t, r, 1);
    }
  }

  lemma LatestHasIff(t: seq<Entry>, k: int)
    ensures k in Latest(t) <==> Holds(t, k)
  {
    if t != [] {
      var front := t[..|t| - 1];
      LatestHasIff(front, k);
      if Holds(front, k) {
        var i :| 0 <= i < |front| && front[i].at == k;
        assert t[i].at == k;
      }
      if k == t[|t| - 1].at {
        assert HeldFrom(t, 0, k);
      } else if Holds(t, k) {
        var i :| 0 <= i < |t| && t[i].at == k;
        assert front[i].at == k;
      }
    }
  }

  lemma {:induction false} LatestOfDistinct(t: seq<Entry>)
    requires NoSeqTwice(t)
    ensures forall i | 0 <= i < |t| :: t[i].at in Latest(t) && Latest(t)[t[i].at] == t[i]
    ensures forall k :: k in Latest(t) <==> Holds(t, k)
  {
    if t != [] {
      var front := t[..|t| - 1];
      LatestOfDistinct(front);
      forall i | 0 <= i < |t| ensures t[i].at in Latest(t) && Latest(t)[t[i].at] == t[i] {
        assert i < |front| ==> front[i] == t[i];
      }
    }
    forall k ensures k in Latest(t) <==> Holds(t, k) {
      LatestHasIff(t, k);
    }
  }
}
