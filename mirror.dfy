/** The mirror graph: slot j of the mirror table holds the master of
    channel j + 1 (channels are numbered from 1), and setting a channel
    recursively sets every channel whose slot names it.

    The setter only looks at the first `scan` slots, and only a value in
    1..|m| can ever equal the channel being set, so only those slots are
    edges. The source requires the edges to be acyclic but never checks it;
    here acyclicity is a rank: every slave ranks strictly below its master,
    and the recursion of the setter decreases that rank. */
module MirrorTable {

  /** An edge from slave j + 1 to master m[j]. */
  ghost predicate IsEdge(m: seq<int>, scan: nat, j: int)
  {
    0 <= j < scan <= |m| && 1 <= m[j] <= |m|
  }

  /** `rank` witnesses that the edges of `m` form no cycle. */
  ghost predicate Ranked(m: seq<int>, scan: nat, rank: seq<nat>)
  {
    && scan <= |m| && |rank| == |m|
    && forall j {:trigger IsEdge(m, scan, j)} :: IsEdge(m, scan, j) ==> rank[j] < rank[m[j] - 1]
  }

  lemma RankedEdge(m: seq<int>, scan: nat, rank: seq<nat>, j: int)
    requires Ranked(m, scan, rank) && IsEdge(m, scan, j)
    ensures rank[j] < rank[m[j] - 1]
  {
  }

  ghost predicate Acyclic(m: seq<int>, scan: nat)
  {
    exists rank :: Ranked(m, scan, rank)
  }

  /** The channels the setter reaches when called on channel c: c itself and,
      recursively, every slave of a reached channel. */
  ghost function Reached(m: seq<int>, scan: nat, rank: seq<nat>, c: int): set<int>
    requires Ranked(m, scan, rank) && 1 <= c <= |m|
    decreases rank[c - 1], 1, 0
  {
    {c} + Slaves(m, scan, rank, c, scan)
  }

  /** What the setter's scan over slots 0..i-1 reaches from master c. */
  ghost function Slaves(m: seq<int>, scan: nat, rank: seq<nat>, c: int, i: nat): set<int>
    requires Ranked(m, scan, rank) && 1 <= c <= |m| && i <= scan
    decreases rank[c - 1], 0, i
  {
    if i == 0 then {}
    else Slaves(m, scan, rank, c, i - 1) + (if m[i - 1] == c then assert IsEdge(m, scan, i - 1); Reached(m, scan, rank, i) else {})
  }

  /** Levels with every channel in `targets` set to l. */
  ghost function Assign(levels: seq<int>, targets: set<int>, l: int): (r: seq<int>)
    ensures |r| == |levels|
    ensures forall k :: 0 <= k < |levels| ==> r[k] == if k + 1 in targets then l else levels[k]
  {
    seq(|levels|, k requires 0 <= k < |levels| => if k + 1 in targets then l else levels[k])
  }

  lemma AssignTwice(levels: seq<int>, a: set<int>, b: set<int>, l: int)
    ensures Assign(Assign(levels, a, l), b, l) == Assign(levels, a + b, l)
  {
  }

  lemma {:induction false} SlavesRange(m: seq<int>, scan: nat, rank: seq<nat>, c: int, i: nat, x: int)
    requires Ranked(m, scan, rank) && 1 <= c <= |m| && i <= scan
    requires x in Slaves(m, scan, rank, c, i)
    ensures 1 <= x <= |m|
    decreases rank[c - 1], 0, i
  {
    if i > 0 {
      if x in Slaves(m, scan, rank, c, i - 1) {
        SlavesRange(m, scan, rank, c, i - 1, x);
      } else {
        RankedEdge(m, scan, rank, i - 1);
        ReachedRange(m, scan, rank, i, x);
      }
    }
  }

  /** Every reached channel is a channel number in 1..|m|. */
  lemma {:induction false} ReachedRange(m: seq<int>, scan: nat, rank: seq<nat>, c: int, x: int)
    requires Ranked(m, scan, rank) && 1 <= c <= |m|
    requires x in Reached(m, scan, rank, c)
    ensures 1 <= x <= |m|
    decreases rank[c - 1], 1, 0
  {
    if x != c {
      SlavesRange(m, scan, rank, c, scan, x);
    }
  }

  lemma {:induction false} SlaveIn(m: seq<int>, scan: nat, rank: seq<nat>, c: int, i: nat, j: int)
    requires Ranked(m, scan, rank) && 1 <= c <= |m| && i <= scan
    requires 0 <= j < i && m[j] == c
    ensures j + 1 in Slaves(m, scan, rank, c, i)
  {
    if j < i - 1 {
      SlaveIn(m, scan, rank, c, i - 1, j);
    }
  }

  lemma {:induction false} SlavesTransitive(m: seq<int>, scan: nat, rank: seq<nat>, c: int, i: nat, x: int)
    requires Ranked(m, scan, rank) && 1 <= c <= |m| && i <= scan
    requires x in Slaves(m, scan, rank, c, i)
    ensures 1 <= x <= |m| && Reached(m, scan, rank, x) <= Slaves(m, scan, rank, c, i)
    decreases rank[c - 1], 0, i
  {
    SlavesRange(m, scan, rank, c, i, x);
    if x in Slaves(m, scan, rank, c, i - 1) {
      SlavesTransitive(m, scan, rank, c, i - 1, x);
    } else {
      RankedEdge(m, scan, rank, i - 1);
      ReachedTransitive(m, scan, rank, i, x);
    }
  }

  /** Whatever a reached channel reaches is reached too. */
  lemma {:induction false} ReachedTransitive(m: seq<int>, scan: nat, rank: seq<nat>, c: int, x: int)
    requires Ranked(m, scan, rank) && 1 <= c <= |m|
    requires x in Reached(m, scan, rank, c)
    ensures 1 <= x <= |m| && Reached(m, scan, rank, x) <= Reached(m, scan, rank, c)
    decreases rank[c - 1], 1, 0
  {
    if x != c {
      SlavesTransitive(m, scan, rank, c, scan, x);
    }
  }

  /** Closure: a slave (within the scanned slots) of a reached channel is
      reached, so every channel whose mirror chain leads to c is reached. */
  lemma ReachedClosed(m: seq<int>, scan: nat, rank: seq<nat>, c: int, x: int, j: int)
    requires Ranked(m, scan, rank) && 1 <= c <= |m|
    requires x in Reached(m, scan, rank, c)
    requires 0 <= j < scan && m[j] == x
    ensures j + 1 in Reached(m, scan, rank, c)
  {
    ReachedTransitive(m, scan, rank, c, x);
    SlaveIn(m, scan, rank, x, scan, j);
  }

  lemma {:induction false} SlavesSound(m: seq<int>, scan: nat, rank: seq<nat>, c: int, i: nat, x: int)
    requires Ranked(m, scan, rank) && 1 <= c <= |m| && i <= scan
    requires x in Slaves(m, scan, rank, c, i)
    ensures 1 <= x <= scan && m[x - 1] in Reached(m, scan, rank, c)
    decreases rank[c - 1], 0, i
  {
    if x in Slaves(m, scan, rank, c, i - 1) {
      SlavesSound(m, scan, rank, c, i - 1, x);
    } else if x != i {
      RankedEdge(m, scan, rank, i - 1);
      ReachedSound(m, scan, rank, i, x);
      SlaveIn(m, scan, rank, c, scan, i - 1);
      ReachedTransitive(m, scan, rank, c, i);
    }
  }

  /** Soundness: every reached channel other than c is a scanned slave
      whose master is itself reached. */
  lemma {:induction false} ReachedSound(m: seq<int>, scan: nat, rank: seq<nat>, c: int, x: int)
    requires Ranked(m, scan, rank) && 1 <= c <= |m|
    requires x in Reached(m, scan, rank, c) && x != c
    ensures 1 <= x <= scan && m[x - 1] in Reached(m, scan, rank, c)
    decreases rank[c - 1], 1, 0
  {
    SlavesSound(m, scan, rank, c, scan, x);
  }

  /** A chain a -> b -> c of mirror edges makes a, b and c all reached when
      c is set. */
  lemma ChainReached(m: seq<int>, scan: nat, rank: seq<nat>, a: int, b: int, c: int)
    requires Ranked(m, scan, rank) && 1 <= c <= |m|
    requires 1 <= a <= scan && 1 <= b <= scan && m[a - 1] == b && m[b - 1] == c
    ensures {a, b, c} <= Reached(m, scan, rank, c)
  {
    ReachedClosed(m, scan, rank, c, c, b - 1);
    ReachedClosed(m, scan, rank, c, b, a - 1);
  }

  lemma {:induction false} NoSlavesEmpty(m: seq<int>, scan: nat, rank: seq<nat>, c: int, i: nat)
    requires Ranked(m, scan, rank) && 1 <= c <= |m| && i <= scan
    requires forall j :: 0 <= j < scan ==> m[j] != c
    ensures Slaves(m, scan, rank, c, i) == {}
  {
    if i > 0 {
      NoSlavesEmpty(m, scan, rank, c, i - 1);
    }
  }

  /** With no slave naming c, setting c changes only c. */
  lemma NoSlavesOnlyTarget(m: seq<int>, scan: nat, rank: seq<nat>, c: int)
    requires Ranked(m, scan, rank) && 1 <= c <= |m|
    requires forall j :: 0 <= j < scan ==> m[j] != c
    ensures Reached(m, scan, rank, c) == {c}
  {
    NoSlavesEmpty(m, scan, rank, c, scan);
  }

  /** A channel whose slot holds no channel number (0 after `unmirror`, -1
      after a reset) is reached only when it is the channel being set. */
  lemma UnmirroredNotReached(m: seq<int>, scan: nat, rank: seq<nat>, c: int, s: int)
    requires Ranked(m, scan, rank) && 1 <= c <= |m|
    requires 1 <= s <= |m| && m[s - 1] <= 0 && s != c
    ensures s !in Reached(m, scan, rank, c)
  {
    if s in Reached(m, scan, rank, c) {
      ReachedSound(m, scan, rank, c, s);
      ReachedRange(m, scan, rank, c, m[s - 1]);
      assert false;
    }
  }

  /** Two channels mirroring each other form a cycle: no rank exists, and the
      setter's recursion would not terminate. */
  lemma TwoWayMirrorCyclic(m: seq<int>, scan: nat, a: int, b: int)
    requires 1 <= a <= scan <= |m| && 1 <= b <= scan
    requires m[a - 1] == b && m[b - 1] == a
    ensures !Acyclic(m, scan)
  {
    if Acyclic(m, scan) {
      var rank :| Ranked(m, scan, rank);
      RankedEdge(m, scan, rank, a - 1);
      RankedEdge(m, scan, rank, b - 1);
      assert false;
    }
  }

  /** Editing one slot keeps a rank valid when the new value is not a
      channel number or names a higher-ranked master. */
  lemma RankedAfterEdit(m: seq<int>, scan: nat, rank: seq<nat>, s: int, v: int)
    requires Ranked(m, scan, rank) && 0 <= s < |m|
    requires 1 <= v <= |m| ==> s >= scan || rank[s] < rank[v - 1]
    ensures Ranked(m[s := v], scan, rank)
  {
    var m' := m[s := v];
    forall j | IsEdge(m', scan, j)
      ensures rank[j] < rank[m'[j] - 1]
    {
      if j != s {
        RankedEdge(m, scan, rank, j);
      }
    }
  }
}
