/**
 What one pass of the `for` loop does to the tiles: which tiles stay in the
 list, how values change, how far the tiles travel, and when the pass
 changes nothing.
 */
module ScanFacts {
  import opened Tiles
  import opened Policy
  import opened OrderedDict
  import opened Sums
  import opened Engine

  /** Taking one tile out of a list of distinct tiles leaves a list of distinct tiles. */
  lemma DistinctRemoveAt<Id>(ids: seq<Id>, i: nat)
    requires Distinct(ids) && i < |ids|
    ensures Distinct(ids[..i] + ids[i + 1..])
    ensures forall id | id in ids[..i] + ids[i + 1..] :: id in ids && id != ids[i]
  {
    var r := ids[..i] + ids[i + 1..];
    forall a | 0 <= a < |r| ensures r[a] == ids[if a < i then a else a + 1] {
    }
  }

  /** A visit keeps the tiles distinct, only drops tiles, and only adds to `blocks`. */
  lemma VisitShape<Id>(d: Direction, dict: Dict<Id>, s: Scanned<Id>, i: nat)
    requires i < |s.live| && InHeap(s.heap, s.live) && InHeap(s.heap, Values(dict))
    requires Distinct(s.live)
    ensures Distinct(Visit(d, dict, s, i).live)
    ensures forall id | id in Visit(d, dict, s, i).live :: id in s.live
  {
    if Visit(d, dict, s, i).live != s.live {
      DistinctRemoveAt(s.live, i);
    }
  }

  /** Two states of a tile at the same pixel position and in the same cell. */
  predicate SamePlace(t: TileState, u: TileState) {
    t.x == u.x && t.y == u.y && t.row == u.row && t.col == u.col
  }

  /** A tile at the edge stays where it is through any visit: its own, or another tile's. */
  lemma VisitKeepsEdge<Id>(d: Direction, dict: Dict<Id>, s: Scanned<Id>, i: nat, x: Id)
    requires i < |s.live| && InHeap(s.heap, s.live) && InHeap(s.heap, Values(dict))
    requires x in s.heap && AtEdge(d, s.heap[x])
    ensures SamePlace(Visit(d, dict, s, i).heap[x], s.heap[x])
  {
  }

  /** A tile at the edge is not moved by a pass. */
  lemma {:induction false} ScanKeepsEdge<Id>(d: Direction, dict: Dict<Id>, s: Scanned<Id>, i: nat, x: Id)
    requires InHeap(s.heap, s.live) && InHeap(s.heap, Values(dict))
    requires x in s.heap && AtEdge(d, s.heap[x])
    ensures x in Scan(d, dict, s, i).heap && SamePlace(Scan(d, dict, s, i).heap[x], s.heap[x])
    decreases |s.live| - i
  {
    if i < |s.live| {
      VisitKeepsEdge(d, dict, s, i, x);
      ScanKeepsEdge(d, dict, Visit(d, dict, s, i), i + 1, x);
    }
  }

  /** A tile already in `blocks` is never the mover of a merge, so its visit pops nothing. */
  lemma BlockedStays<Id>(d: Direction, dict: Dict<Id>, s: Scanned<Id>, i: nat)
    requires i < |s.live| && InHeap(s.heap, s.live) && InHeap(s.heap, Values(dict))
    requires s.live[i] in s.blocks
    ensures Visit(d, dict, s, i).live == s.live
  {
  }

  /** A tile merged into earlier stays listed for the rest of the pass: it merges at most once. */
  lemma {:induction false} ScanBlockedStay<Id>(d: Direction, dict: Dict<Id>, s: Scanned<Id>, i: nat, x: Id)
    requires InHeap(s.heap, s.live) && InHeap(s.heap, Values(dict)) && Distinct(s.live)
    requires x in s.blocks && x in s.live
    ensures x in Scan(d, dict, s, i).live
    decreases |s.live| - i
  {
    if i < |s.live| {
      VisitKeepsBlocked(d, dict, s, i, x);
      VisitShape(d, dict, s, i);
      ScanBlockedStay(d, dict, Visit(d, dict, s, i), i + 1, x);
    }
  }

  /** One visit keeps a listed tile of `blocks` listed, and in `blocks`. */
  lemma VisitKeepsBlocked<Id>(d: Direction, dict: Dict<Id>, s: Scanned<Id>, i: nat, x: Id)
    requires i < |s.live| && InHeap(s.heap, s.live) && InHeap(s.heap, Values(dict))
    requires x in s.blocks && x in s.live
    ensures x in Visit(d, dict, s, i).live && x in Visit(d, dict, s, i).blocks
  {
    if s.live[i] == x {
      BlockedStays(d, dict, s, i);
    } else {
      RemoveOther(s.live, i, x);
    }
  }

  /** Removing index i keeps every element other than the one at i. */
  lemma RemoveOther<Id>(ids: seq<Id>, i: nat, x: Id)
    requires i < |ids| && x in ids && x != ids[i]
    ensures x in ids[..i] + ids[i + 1..]
  {
    var k :| 0 <= k < |ids| && ids[k] == x;
    assert x == (ids[..i] + ids[i + 1..])[if k < i then k else k - 1];
  }

  /**
   A pass from index i on keeps the tiles distinct, only drops tiles, only
   adds to `blocks`, and every tile it drops adds one to `blocks`.
   */
  lemma ScanShape<Id>(d: Direction, dict: Dict<Id>, s: Scanned<Id>, i: nat)
    requires InHeap(s.heap, s.live) && InHeap(s.heap, Values(dict)) && Distinct(s.live)
    ensures var r := Scan(d, dict, s, i);
      && Distinct(r.live)
      && (forall id | id in r.live :: id in s.live)
      && s.blocks <= r.blocks
      && |r.live| + |r.blocks| == |s.live| + |s.blocks|
      && (s.updated ==> r.updated)
  {
    ScanDistinct(d, dict, s, i);
    ScanCount(d, dict, s, i);
  }

  /** A pass from index i on keeps the tiles distinct and only drops tiles. */
  lemma {:induction false} ScanDistinct<Id>(d: Direction, dict: Dict<Id>, s: Scanned<Id>, i: nat)
    requires InHeap(s.heap, s.live) && InHeap(s.heap, Values(dict)) && Distinct(s.live)
    ensures var r := Scan(d, dict, s, i);
      Distinct(r.live) && forall id | id in r.live :: id in s.live
    decreases |s.live| - i
  {
    if i < |s.live| {
      var s' := Visit(d, dict, s, i);
      VisitShape(d, dict, s, i);
      ScanDistinct(d, dict, s', i + 1);
    }
  }

  /** A pass from index i on only adds to `blocks`, one for every tile it drops. */
  lemma {:induction false} ScanCount<Id>(d: Direction, dict: Dict<Id>, s: Scanned<Id>, i: nat)
    requires InHeap(s.heap, s.live) && InHeap(s.heap, Values(dict))
    ensures var r := Scan(d, dict, s, i);
      && s.blocks <= r.blocks
      && |r.live| + |r.blocks| == |s.live| + |s.blocks|
      && (s.updated ==> r.updated)
    decreases |s.live| - i
  {
    if i < |s.live| {
      ScanCount(d, dict, Visit(d, dict, s, i), i + 1);
    }
  }

  lemma TickWell<Id>(d: Direction, s: Scanned<Id>, id: Id)
    requires id in s.heap && AllWell(s.heap) && !AtEdge(d, s.heap[id])
    ensures AllWell(Tick(d, s, id).heap)
  {
    AdvanceKeepsPlaced(d, s.heap[id]);
  }

  lemma AbsorbWell<Id>(d: Direction, s: Scanned<Id>, i: nat, nid: Id)
    requires i < |s.live| && s.live[i] in s.heap && nid in s.heap && AllWell(s.heap)
    ensures AllWell(Absorb(d, s, i, nid).heap)
  {
    var n := s.heap[nid];
    DoubledIsPowerOfTwo(n.value);
    var h := s.heap[nid := n.(value := 2 * n.value)];
    RepositionedIsPlaced(h[s.live[i]], RoundsUp(d));
  }

  /** A visit keeps every tile well formed. */
  lemma VisitWell<Id>(d: Direction, dict: Dict<Id>, s: Scanned<Id>, i: nat)
    requires i < |s.live| && InHeap(s.heap, s.live) && InHeap(s.heap, Values(dict))
    requires AllWell(s.heap)
    ensures AllWell(Visit(d, dict, s, i).heap)
  {
    var id := s.live[i];
    var t := s.heap[id];
    if !AtEdge(d, t) {
      match Lookup(dict, NeighbourKey(d, t))
      case None =>
        TickWell(d, s, id);
      case Some(nid) =>
        TickWell(d, s, id);
        AbsorbWell(d, s, i, nid);
    }
  }

  /**
   A visit doubles the value of the tile it adds to `blocks`, if any, and
   leaves every other value as it was.
   */
  lemma VisitValues<Id>(d: Direction, dict: Dict<Id>, s: Scanned<Id>, i: nat)
    requires i < |s.live| && InHeap(s.heap, s.live) && InHeap(s.heap, Values(dict))
    ensures var r := Visit(d, dict, s, i);
      forall id | id in s.heap ::
        r.heap[id].value == (if id in r.blocks - s.blocks then 2 * s.heap[id].value else s.heap[id].value)
  {
    var id := s.live[i];
    var t := s.heap[id];
    if !AtEdge(d, t) {
      match Lookup(dict, NeighbourKey(d, t))
      case None =>
        TickValues(d, s, id);
      case Some(nid) =>
        if Mergeable(t, s.heap[nid], id, nid, s.blocks) && !MergeGapOpen(d, t, s.heap[nid]) {
          AbsorbValues(d, s, i, nid);
        } else {
          TickValues(d, s, id);
        }
    }
  }

  /** A tick changes no value. */
  lemma TickValues<Id>(d: Direction, s: Scanned<Id>, id: Id)
    requires id in s.heap
    ensures var h := Tick(d, s, id).heap;
      h.Keys == s.heap.Keys && forall x | x in s.heap :: h[x].value == s.heap[x].value
  {
  }

  /** A merge doubles the value of the tile merged into and no other. */
  lemma AbsorbValues<Id>(d: Direction, s: Scanned<Id>, i: nat, nid: Id)
    requires i < |s.live| && s.live[i] in s.heap && nid in s.heap
    ensures var h := Absorb(d, s, i, nid).heap;
      h.Keys == s.heap.Keys
      && forall x | x in s.heap :: h[x].value == (if x == nid then 2 * s.heap[x].value else s.heap[x].value)
  {
  }

  /** A tick brings the ticking tile MOVE_VEL closer to the edge, so the listed travel sum drops by MOVE_VEL. */
  lemma TickTravel<Id>(d: Direction, s: Scanned<Id>, id: Id)
    requires InHeap(s.heap, s.live) && Distinct(s.live) && id in s.live
    requires AllWell(s.heap) && !AtEdge(d, s.heap[id])
    ensures Sum(Travel(d), Tick(d, s, id).heap, s.live) == Sum(Travel(d), s.heap, s.live) - MOVE_VEL
  {
    AdvanceKeepsPlaced(d, s.heap[id]);
    SumUpdate(Travel(d), s.heap, s.live, id, Advance(d, s.heap[id]));
  }

  /** A tick changes no value. */
  lemma TickPoints<Id>(d: Direction, s: Scanned<Id>, id: Id)
    requires InHeap(s.heap, s.live) && id in s.heap && AllWell(s.heap) && !AtEdge(d, s.heap[id])
    ensures Sum(Points, Tick(d, s, id).heap, s.live) == Sum(Points, s.heap, s.live)
  {
    AdvanceKeepsPlaced(d, s.heap[id]);
    SumFrame(Points, s.heap, Tick(d, s, id).heap, s.live);
  }

  /** A merge takes the moving tile out of the list, so the listed travel sum drops. */
  lemma AbsorbTravel<Id>(d: Direction, s: Scanned<Id>, i: nat, nid: Id)
    requires InHeap(s.heap, s.live) && Distinct(s.live) && i < |s.live| && nid in s.heap
    requires AllWell(s.heap)
    ensures var r := Absorb(d, s, i, nid);
      InHeap(r.heap, r.live) && Sum(Travel(d), r.heap, r.live) < Sum(Travel(d), s.heap, s.live)
  {
    var r := Absorb(d, s, i, nid);
    DistinctRemoveAt(s.live, i);
    SumRemoveAt(Travel(d), s.heap, s.live, i);
    ScorePositive(Travel(d), s.heap[s.live[i]]);
    SumFrame(Travel(d), s.heap, r.heap, r.live);
  }

  /**
   A merge takes the absorbed tile's value out of the sum and adds it back
   to the target, so the sum is kept when the target is still in the list
   and drops otherwise.
   */
  lemma AbsorbPoints<Id>(d: Direction, s: Scanned<Id>, i: nat, nid: Id)
    requires InHeap(s.heap, s.live) && Distinct(s.live) && i < |s.live| && nid in s.heap
    requires AllWell(s.heap) && s.heap[nid].value == s.heap[s.live[i]].value
    ensures var r := Absorb(d, s, i, nid);
      && InHeap(r.heap, r.live)
      && Sum(Points, r.heap, r.live) <= Sum(Points, s.heap, s.live)
      && (nid in r.live ==> Sum(Points, r.heap, r.live) == Sum(Points, s.heap, s.live))
  {
    var r := Absorb(d, s, i, nid);
    var n := s.heap[nid];
    var h := s.heap[nid := n.(value := 2 * n.value)];
    DistinctRemoveAt(s.live, i);
    SumRemoveAt(Points, s.heap, s.live, i);
    SumUpdate(Points, s.heap, r.live, nid, n.(value := 2 * n.value));
    SumFrame(Points, h, r.heap, r.live);
  }

  /**
   A visit that changes anything shortens the travel still ahead of the
   listed tiles: by a tick, or by the whole share of the absorbed tile.
   */
  lemma VisitTravel<Id>(d: Direction, dict: Dict<Id>, s: Scanned<Id>, i: nat)
    requires i < |s.live| && InHeap(s.heap, s.live) && InHeap(s.heap, Values(dict))
    requires Distinct(s.live) && AllWell(s.heap)
    ensures var r := Visit(d, dict, s, i);
      Sum(Travel(d), r.heap, r.live) + (if r.updated then 1 else 0)
        <= Sum(Travel(d), s.heap, s.live) + (if s.updated then 1 else 0)
  {
    var id := s.live[i];
    var t := s.heap[id];
    if !AtEdge(d, t) {
      match Lookup(dict, NeighbourKey(d, t))
      case None =>
        TickTravel(d, s, id);
      case Some(nid) =>
        if Mergeable(t, s.heap[nid], id, nid, s.blocks) && !MergeGapOpen(d, t, s.heap[nid]) {
          AbsorbTravel(d, s, i, nid);
        } else {
          TickTravel(d, s, id);
        }
    }
  }

  /**
   A visit never raises the sum of the listed tiles' values, and keeps it
   unless it merges into a tile that is no longer listed.
   */
  lemma VisitPoints<Id>(d: Direction, dict: Dict<Id>, s: Scanned<Id>, i: nat)
    requires i < |s.live| && InHeap(s.heap, s.live) && InHeap(s.heap, Values(dict))
    requires Distinct(s.live) && AllWell(s.heap)
    ensures var r := Visit(d, dict, s, i);
      && Sum(Points, r.heap, r.live) <= Sum(Points, s.heap, s.live)
      && ((forall b | b in r.blocks - s.blocks :: b in r.live) ==>
            Sum(Points, r.heap, r.live) == Sum(Points, s.heap, s.live))
  {
    var id := s.live[i];
    var t := s.heap[id];
    if !AtEdge(d, t) {
      match Lookup(dict, NeighbourKey(d, t))
      case None =>
        TickPoints(d, s, id);
      case Some(nid) =>
        TickPoints(d, s, id);
        if t.value == s.heap[nid].value {
          AbsorbPoints(d, s, i, nid);
        }
    }
  }

  /** The facts a pass needs about the tiles it starts from. */
  predicate Ready<Id>(dict: Dict<Id>, s: Scanned<Id>) {
    InHeap(s.heap, s.live) && InHeap(s.heap, Values(dict)) && Distinct(s.live) && AllWell(s.heap)
  }

  lemma VisitReady<Id>(d: Direction, dict: Dict<Id>, s: Scanned<Id>, i: nat)
    requires i < |s.live| && Ready(dict, s)
    ensures Ready(dict, Visit(d, dict, s, i))
  {
    VisitShape(d, dict, s, i);
    VisitWell(d, dict, s, i);
  }

  /** A pass keeps every tile well formed. */
  lemma {:induction false} ScanWell<Id>(d: Direction, dict: Dict<Id>, s: Scanned<Id>, i: nat)
    requires Ready(dict, s)
    ensures Ready(dict, Scan(d, dict, s, i))
    decreases |s.live| - i
  {
    if i < |s.live| {
      VisitReady(d, dict, s, i);
      ScanWell(d, dict, Visit(d, dict, s, i), i + 1);
    }
  }

  /**
   A pass doubles the value of each tile it adds to `blocks` (each one once)
   and leaves every other value as it was.
   */
  lemma {:induction false} ScanValues<Id>(d: Direction, dict: Dict<Id>, s: Scanned<Id>, i: nat)
    requires InHeap(s.heap, s.live) && InHeap(s.heap, Values(dict))
    ensures var r := Scan(d, dict, s, i);
      forall id | id in s.heap ::
        r.heap[id].value == (if id in r.blocks - s.blocks then 2 * s.heap[id].value else s.heap[id].value)
    decreases |s.live| - i
  {
    if i < |s.live| {
      var s' := Visit(d, dict, s, i);
      VisitValues(d, dict, s, i);
      assert InHeap(s'.heap, s'.live) by {
        forall id | id in s'.live ensures id in s.live {
        }
      }
      ScanValues(d, dict, s', i + 1);
      ScanBlocksGrow(d, dict, s', i + 1);
    }
  }

  /** A pass only adds to `blocks`. */
  lemma {:induction false} ScanBlocksGrow<Id>(d: Direction, dict: Dict<Id>, s: Scanned<Id>, i: nat)
    requires InHeap(s.heap, s.live) && InHeap(s.heap, Values(dict))
    ensures s.blocks <= Scan(d, dict, s, i).blocks
    decreases |s.live| - i
  {
    if i < |s.live| {
      var s' := Visit(d, dict, s, i);
      assert InHeap(s'.heap, s'.live) by {
        forall id | id in s'.live ensures id in s.live {
        }
      }
      ScanBlocksGrow(d, dict, s', i + 1);
    }
  }

  /**
   The travel still ahead of the listed tiles never grows during a pass, and
   the first visit that changes anything shortens it.
   */
  lemma {:induction false} ScanTravel<Id>(d: Direction, dict: Dict<Id>, s: Scanned<Id>, i: nat)
    requires Ready(dict, s)
    ensures var r := Scan(d, dict, s, i);
      Sum(Travel(d), r.heap, r.live) + (if r.updated then 1 else 0)
        <= Sum(Travel(d), s.heap, s.live) + (if s.updated then 1 else 0)
    decreases |s.live| - i
  {
    if i < |s.live| {
      VisitTravel(d, dict, s, i);
      VisitReady(d, dict, s, i);
      ScanTravel(d, dict, Visit(d, dict, s, i), i + 1);
    }
  }

  /**
   A pass never raises the sum of the listed tiles' values, and keeps it
   when every tile it merged into is still listed at the end.
   */
  lemma {:induction false} ScanPoints<Id>(d: Direction, dict: Dict<Id>, s: Scanned<Id>, i: nat)
    requires Ready(dict, s)
    ensures var r := Scan(d, dict, s, i);
      && Sum(Points, r.heap, r.live) <= Sum(Points, s.heap, s.live)
      && ((forall b | b in r.blocks - s.blocks :: b in r.live) ==>
            Sum(Points, r.heap, r.live) == Sum(Points, s.heap, s.live))
    decreases |s.live| - i
  {
    if i < |s.live| {
      var s' := Visit(d, dict, s, i);
      VisitPoints(d, dict, s, i);
      VisitReady(d, dict, s, i);
      ScanPoints(d, dict, s', i + 1);
      ScanShape(d, dict, s', i + 1);
    }
  }

  /**
   A pass that starts with `updated` false ends with it true exactly when
   some tile from index i on acts, and when none does it changes nothing.
   */
  lemma {:induction false} ScanIdle<Id>(d: Direction, dict: Dict<Id>, s: Scanned<Id>, i: nat)
    requires InHeap(s.heap, s.live) && InHeap(s.heap, Values(dict)) && !s.updated
    ensures var r := Scan(d, dict, s, i);
      && (r.updated <==> exists k | i <= k < |s.live| :: Acts(d, dict, s.heap, s.blocks, s.live[k]))
      && (!r.updated ==> r == s)
    decreases |s.live| - i
  {
    if i < |s.live| {
      var s' := Visit(d, dict, s, i);
      if Acts(d, dict, s.heap, s.blocks, s.live[i]) {
        assert InHeap(s'.heap, s'.live) by {
          forall id | id in s'.live ensures id in s.live {
          }
        }
        ScanUpdatedStays(d, dict, s', i + 1);
      } else {
        ScanIdle(d, dict, s, i + 1);
        assert forall k | i <= k < |s.live| ::
          Acts(d, dict, s.heap, s.blocks, s.live[k]) <==> k != i && Acts(d, dict, s.heap, s.blocks, s.live[k]);
      }
    }
  }

  /** Once set, `updated` stays set for the rest of the pass. */
  lemma {:induction false} ScanUpdatedStays<Id>(d: Direction, dict: Dict<Id>, s: Scanned<Id>, i: nat)
    requires InHeap(s.heap, s.live) && InHeap(s.heap, Values(dict)) && s.updated
    ensures Scan(d, dict, s, i).updated
    decreases |s.live| - i
  {
    if i < |s.live| {
      var s' := Visit(d, dict, s, i);
      assert InHeap(s'.heap, s'.live) by {
        forall id | id in s'.live ensures id in s.live {
        }
      }
      ScanUpdatedStays(d, dict, s', i + 1);
    }
  }
}
