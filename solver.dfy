/** The greedy auto-solver of main.py: the priority table `weight_move` and
    the memory of candidate moves that `AutoMove` keeps between calls. Piles
    are named by `Rules.PileId`; the solver's dictionary, whose iteration
    order is insertion order, is a sequence of entries with distinct keys. */
module Solver {
  import opened Wrappers
  import opened Cards
  import opened CardPiles
  import opened Rules
  import Game

  /** A candidate `(source, destination)` pair. */
  datatype Move = Move(from: PileId, to: PileId) {
    predicate Valid()
    {
      from.Valid() && to.Valid()
    }
  }

  /** The pair `(deck, deck)`, which stands for a deal. */
  const DealMove: Move := Move(Deck, Deck)

  // ---------------------------------------------------------------------
  // weight_move

  /** `weight_move(game, (s, d))`: lower is better. `None` where the source
      would raise `IndexError`, reading the lowest face-up card of a source
      that has none. */
  function WeightMove(b: Board, s: PileId, d: PileId): (r: Option<nat>)
    requires b.Valid() && s.Valid() && d.Valid()
    ensures r == Some(0) <==> d.Home?
    ensures r.None? ==> s.Tableau? && d.Tableau? && b.Get(s).flip >= |b.Get(s).cards|
  {
    var src, dst := b.Get(s), b.Get(d);
    if d.Home? then Some(0)
    else if s.Home? then Some(5)
    else if d == Deck then Some(4)
    else if s == Deck then Some(1)
    else if |dst.cards| == 0 && src.flip == 0 then Some(99)
    else if |dst.cards| == 0 then Some(2)
    else if src.flip >= |src.cards| then None
    else if Top(dst).value - 1 == src.cards[src.flip].value then Some(2)
    else Some(3)
  }

  /** Every legal move has a weight. A move onto a foundation, and only such a
      move, weighs 0; a move off a foundation onto the tableau 5; a move from
      the waste onto the tableau 1. Between tableau piles the weight is 99 for
      a pile without face-down cards going to an empty pile, 2 when the whole
      face-up run moves, and 3 only when a part of the run stays behind. */
  lemma WeightOfLegalMove(b: Board, s: PileId, d: PileId)
    requires b.Valid() && s.Valid() && d.Valid() && CanMovePile(b, s, d) && d != Deck
    ensures WeightMove(b, s, d).Some?
    ensures WeightMove(b, s, d) == Some(0) <==> d.Home?
    ensures WeightMove(b, s, d) == Some(5) <==> s.Home? && d.Tableau?
    ensures WeightMove(b, s, d) == Some(1) <==> s == Deck && d.Tableau?
    ensures s.Tableau? && d.Tableau? ==>
      var w := WeightMove(b, s, d).value;
      && (w == 99 <==> b.Get(d).cards == [] && b.Get(s).flip == 0)
      && (MovePilePlan(b, s, d).value.index == b.Get(s).flip ==> w == 2 || w == 99)
      && (w == 3 ==> MovePilePlan(b, s, d).value.index > b.Get(s).flip)
      && w in {2, 3, 99}
  {
    if s.Tableau? && d.Tableau? && |b.Get(d).cards| > 0 {
      MovePileRunRule(b, s, d);
      var src := b.Get(s);
      var i := MovePilePlan(b, s, d).value.index;
      if i == src.flip {
        assert Stacks(src.cards[src.flip], Top(b.Get(d)));
      }
    }
  }

  /** The deal entry always weighs 4, whatever the board. */
  lemma DealWeighsFour(b: Board)
    requires b.Valid()
    ensures WeightMove(b, Deck, Deck) == Some(4)
  {}

  // ---------------------------------------------------------------------
  // The memory: a dictionary with insertion order

  /** One entry of `AutoMove.moves`. */
  datatype Entry = Entry(move: Move, weight: nat)

  type Memory = seq<Entry>

  function Keys(m: Memory): (ks: seq<Move>)
    ensures |ks| == |m|
    ensures forall i :: 0 <= i < |m| ==> ks[i] == m[i].move
  {
    seq(|m|, i requires 0 <= i < |m| => m[i].move)
  }

  /** A dictionary holds each key once. */
  predicate UniqueKeys(m: Memory)
  {
    forall i, j :: 0 <= i < j < |m| ==> m[i].move != m[j].move
  }

  /** `moves[k] = w`: an existing key keeps its place and takes the new
      weight; a new key goes to the end. */
  function Put(m: Memory, k: Move, w: nat): (r: Memory)
    ensures |r| == if k in Keys(m) then |m| else |m| + 1
    ensures forall i :: 0 <= i < |m| && m[i].move != k ==> r[i] == m[i]
  {
    if k in Keys(m) then
      seq(|m|, i requires 0 <= i < |m| => if m[i].move == k then Entry(k, w) else m[i])
    else m + [Entry(k, w)]
  }

  /** After `moves[k] = w`, `k` maps to `w` and every other entry is as it
      was, in the same order. */
  lemma PutStores(m: Memory, k: Move, w: nat)
    requires UniqueKeys(m)
    ensures UniqueKeys(Put(m, k, w))
    ensures Keys(Put(m, k, w)) == if k in Keys(m) then Keys(m) else Keys(m) + [k]
    ensures forall e :: e in Put(m, k, w) <==> e == Entry(k, w) || (e in m && e.move != k)
  {
    var r := Put(m, k, w);
    if k in Keys(m) {
      var i :| 0 <= i < |m| && m[i].move == k;
      assert r[i] == Entry(k, w);
    } else {
      assert Keys(r) == Keys(m) + [k];
    }
  }

  /** `del moves[k]`. */
  function Delete(m: Memory, k: Move): (r: Memory)
    ensures |r| <= |m|
    ensures forall i :: 0 <= i < |r| ==> r[i].move != k
  {
    if m == [] then [] else (if m[0].move == k then [] else [m[0]]) + Delete(m[1..], k)
  }

  /** Deleting a key removes exactly its entries and keeps the others. */
  lemma {:induction false} DeleteRemoves(m: Memory, k: Move)
    ensures forall e :: e in Delete(m, k) <==> e in m && e.move != k
  {
    if m != [] {
      DeleteRemoves(m[1..], k);
      assert m == [m[0]] + m[1..];
    }
  }

  /** Deleting a key that is not stored changes nothing. */
  lemma {:induction false} DeleteAbsent(m: Memory, k: Move)
    requires forall j :: 0 <= j < |m| ==> m[j].move != k
    ensures Delete(m, k) == m
  {
    if m != [] {
      DeleteAbsent(m[1..], k);
      assert m == [m[0]] + m[1..];
    }
  }

  /** Deleting keeps keys distinct. */
  lemma {:induction false} DeleteUnique(m: Memory, k: Move)
    requires UniqueKeys(m)
    ensures UniqueKeys(Delete(m, k))
  {
    if m != [] {
      DeleteUnique(m[1..], k);
      DeleteRemoves(m[1..], k);
      var r := Delete(m, k);
      var t := Delete(m[1..], k);
      if m[0].move != k {
        assert r == [m[0]] + t;
        forall j | 0 < j < |r| ensures r[0].move != r[j].move {
          assert r[j] == t[j - 1];
          assert t[j - 1] in m[1..];
        }
      }
    }
  }

  lemma {:induction false} DeleteAppend(x: Memory, y: Memory, k: Move)
    ensures Delete(x + y, k) == Delete(x, k) + Delete(y, k)
  {
    if x != [] {
      DeleteAppend(x[1..], y, k);
      assert (x + y)[1..] == x[1..] + y;
    } else {
      assert x + y == y;
    }
  }

  lemma DeleteSplit(before: Memory, x: Entry, after: Memory)
    requires forall j :: 0 <= j < |before| ==> before[j].move != x.move
    requires forall j :: 0 <= j < |after| ==> after[j].move != x.move
    ensures Delete(before + [x] + after, x.move) == before + after
  {
    var k := x.move;
    var tail := [x] + after;
    assert before + [x] + after == before + tail;
    DeleteHead(x, after);
    DeleteAbsent(after, k);
    DeleteAbsent(before, k);
    DeleteAppend(before, tail, k);
  }

  /** Deleting the key of the first entry drops that entry. */
  lemma DeleteHead(x: Entry, after: Memory)
    ensures Delete([x] + after, x.move) == Delete(after, x.move)
  {
    var t := [x] + after;
    assert t[0] == x && t[1..] == after;
  }

  /** Deleting the key of entry `i` leaves the entries before and after it,
      in order. */
  lemma DeleteAt(m: Memory, i: nat)
    requires UniqueKeys(m) && i < |m|
    ensures Delete(m, m[i].move) == m[..i] + m[i + 1..]
  {
    var k := m[i].move;
    var before, after := m[..i], m[i + 1..];
    forall j | 0 <= j < |before| ensures before[j].move != k {
      assert before[j] == m[j];
    }
    forall j | 0 <= j < |after| ensures after[j].move != k {
      assert after[j] == m[i + 1 + j];
    }
    assert m == before + [m[i]] + after;
    DeleteSplit(before, m[i], after);
  }

  // ---------------------------------------------------------------------
  // What the memory may hold

  /** A pair the scan considers: a destination on the tableau or the
      foundations, and not from one foundation to another. */
  predicate Scannable(mv: Move)
  {
    mv.Valid() && mv.to != Deck && !(mv.from.Home? && mv.to.Home?)
  }

  /** Every entry is the deal entry at weight 4 or a pair the scan considers;
      keys are distinct. */
  predicate WellFormed(m: Memory)
  {
    && UniqueKeys(m)
    && forall i :: 0 <= i < |m| ==> (m[i] == Entry(DealMove, 4) || Scannable(m[i].move))
  }

  /** What `best_move` may hold: nothing yet, the deal, or a pair the scan
      considers. */
  predicate Remembered(best: Option<Move>)
  {
    best.Some? ==> best.value == DealMove || Scannable(best.value)
  }

  /** `move_pile(s, d, move=False)` for a stored pair. */
  predicate Legal(b: Board, mv: Move)
    requires b.Valid()
  {
    mv.Valid() && CanMovePile(b, mv.from, mv.to)
  }

  // ---------------------------------------------------------------------
  // The phases of `AutoMove.__call__`

  /** Phase 1: when the previous best move `A -> B` did not come from the
      draw pile and `B -> A` is legal now, store `B -> A` at weight 99. */
  function Reinforced(b: Board, m: Memory, best: Option<Move>): (r: Memory)
    requires b.Valid() && (best.Some? ==> best.value.Valid())
    ensures |m| <= |r| <= |m| + 1
  {
    if best.Some? && best.value.from != Deck && CanMovePile(b, best.value.to, best.value.from)
    then Put(m, Move(best.value.to, best.value.from), 99)
    else m
  }

  /** Phase 2: drop every pair `move_pile(..., move=False)` rejects, keeping
      the order of the rest. */
  function Pruned(b: Board, m: Memory): (r: Memory)
    requires b.Valid()
    ensures |r| <= |m|
    ensures forall i :: 0 <= i < |r| ==> Legal(b, r[i].move)
  {
    if m == [] then []
    else
      var last := m[|m| - 1];
      Pruned(b, m[..|m| - 1]) + (if Legal(b, last.move) then [last] else [])
  }

  /** Phase 3: the deal entry is added when absent and the draw pile is not
      empty. */
  function WithDeal(b: Board, m: Memory): (r: Memory)
    requires b.Valid()
    ensures m <= r && |r| <= |m| + 1
  {
    if DealMove !in Keys(m) && |b.deck.cards| > 0 then m + [Entry(DealMove, WeightMove(b, Deck, Deck).value)]
    else m
  }

  /** The sources of the scan, `[deck] + piles + homes`: source `k` of 12. */
  function SourceAt(k: nat): (id: PileId)
    requires k < 12
    ensures id.Valid()
  {
    if k == 0 then Deck else if k < 8 then Tableau(k - 1) else Home(k - 8)
  }

  /** The destinations of the scan, `homes + piles`: destination `k` of 11. */
  function TargetAt(k: nat): (id: PileId)
    requires k < 11
    ensures id.Valid() && id != Deck
  {
    if k < 4 then Home(k) else Tableau(k - 4)
  }

  /** Where a pile comes among the sources. */
  function SourceIndex(id: PileId): (k: nat)
    requires id.Valid()
    ensures k < 12 && SourceAt(k) == id
  {
    match id
    case Deck => 0
    case Tableau(i) => 1 + i
    case Home(j) => 8 + j
  }

  /** Where a pile other than the draw pile comes among the destinations. */
  function TargetIndex(id: PileId): (k: nat)
    requires id.Valid() && id != Deck
    ensures k < 11 && TargetAt(k) == id
  {
    match id
    case Tableau(i) => 4 + i
    case Home(j) => j
  }

  /** One step of the scan: `(s, d)` is added with its weight when it is not a
      foundation-to-foundation pair, not stored yet, and legal. */
  function Consider(b: Board, m: Memory, s: PileId, d: PileId): (r: Memory)
    requires b.Valid() && s.Valid() && d.Valid()
    ensures m <= r && |r| <= |m| + 1
  {
    if s.Home? && d.Home? then m
    else if Move(s, d) !in Keys(m) && CanMovePile(b, s, d) then
      m + [Entry(Move(s, d), WeightMove(b, s, d).value)]
    else m
  }

  /** The inner loop for source `s`, over the first `n` destinations. */
  function ScanRow(b: Board, m: Memory, s: PileId, n: nat): (r: Memory)
    requires b.Valid() && s.Valid() && n <= 11
    ensures m <= r && |r| <= |m| + n
  {
    if n == 0 then m else Consider(b, ScanRow(b, m, s, n - 1), s, TargetAt(n - 1))
  }

  /** The outer loop, over the first `n` sources. */
  function ScanFrom(b: Board, m: Memory, n: nat): (r: Memory)
    requires b.Valid() && n <= 12
    ensures m <= r && |r| <= |m| + 11 * n
  {
    if n == 0 then m else ScanRow(b, ScanFrom(b, m, n - 1), SourceAt(n - 1), 11)
  }

  /** The memory `AutoMove.__call__` selects from: the four phases in order. */
  function Refreshed(b: Board, m: Memory, best: Option<Move>): (r: Memory)
    requires b.Valid() && (best.Some? ==> best.value.Valid())
    ensures |r| <= |m| + 2 + 11 * 12
  {
    ScanFrom(b, WithDeal(b, Pruned(b, Reinforced(b, m, best))), 12)
  }

  /** `min(moves, key=moves.get)`: the position of the first entry of least
      weight. */
  function FirstMinimum(m: Memory): (i: nat)
    requires |m| > 0
    ensures i < |m|
    ensures forall j :: 0 <= j < |m| ==> m[i].weight <= m[j].weight
    ensures forall j :: 0 <= j < i ==> m[i].weight < m[j].weight
  {
    if |m| == 1 then 0
    else
      var k := FirstMinimum(m[..|m| - 1]);
      if m[|m| - 1].weight < m[k].weight then |m| - 1 else k
  }

  /** `min` of an empty dictionary raises `ValueError`. */
  datatype SolverError = NoMoves

  /** The move `AutoMove.__call__` selects and the memory it keeps. */
  function Choose(m: Memory): (r: Result<(Move, Memory), SolverError>)
    ensures r.Err? <==> m == []
  {
    if m == [] then Err(NoMoves)
    else
      var i := FirstMinimum(m);
      Ok((m[i].move, Delete(m, m[i].move)))
  }

  /** Playing a selected move: `deal()` for a move onto the draw pile,
      `move_pile(s, d)` otherwise. */
  function Apply(b: Board, mv: Move): (r: Board)
    requires b.Valid() && mv.Valid()
    ensures r.Valid()
    ensures mv.to == Deck ==> r.piles == b.piles && r.homes == b.homes && r.deck.cards == b.deck.cards
  {
    if mv.to == Deck then DealRule(b, 3); DealBoard(b, 3)
    else MovePileKeepsValid(b, mv.from, mv.to); MovePileResult(b, mv.from, mv.to)
  }

  // ---------------------------------------------------------------------
  // Properties of the phases

  /** `m` is a prefix of `r`: every key of `m` is a key of `r`. */
  lemma KeysGrow(m: Memory, r: Memory)
    requires m <= r
    ensures forall k :: k in Keys(m) ==> k in Keys(r)
  {
    forall k | k in Keys(m) ensures k in Keys(r) {
      var j :| 0 <= j < |m| && Keys(m)[j] == k;
      assert Keys(r)[j] == k;
    }
  }

  /** Phase 1 keeps the memory well formed, stores the reverse of the last
      move at 99 when it is legal, and leaves every other entry alone. */
  lemma ReinforcedEffect(b: Board, m: Memory, best: Option<Move>)
    requires b.Valid() && WellFormed(m) && Remembered(best)
    ensures WellFormed(Reinforced(b, m, best))
    ensures best.Some? && best.value.from != Deck && CanMovePile(b, best.value.to, best.value.from) ==>
      Entry(Move(best.value.to, best.value.from), 99) in Reinforced(b, m, best)
    ensures forall e :: e in m && (best.None? || e.move != Move(best.value.to, best.value.from)) ==>
      e in Reinforced(b, m, best)
  {
    if best.Some? && best.value.from != Deck && CanMovePile(b, best.value.to, best.value.from) {
      var k := Move(best.value.to, best.value.from);
      var r := Put(m, k, 99);
      PutStores(m, k, 99);
      assert Scannable(k);
      forall i | 0 <= i < |r| ensures r[i] == Entry(DealMove, 4) || Scannable(r[i].move) {
        assert r[i] in r;
        if r[i] != Entry(k, 99) {
          var j :| 0 <= j < |m| && m[j] == r[i];
        }
      }
    }
  }

  /** Phase 2 keeps exactly the entries that are legal now, unchanged. */
  lemma {:induction false} PrunedMembers(b: Board, m: Memory)
    requires b.Valid()
    ensures forall e :: e in Pruned(b, m) <==> e in m && Legal(b, e.move)
  {
    if m != [] {
      PrunedMembers(b, m[..|m| - 1]);
      assert m == m[..|m| - 1] + [m[|m| - 1]];
    }
  }

  /** Phase 2 keeps the memory well formed. */
  lemma {:induction false} PrunedWellFormed(b: Board, m: Memory)
    requires b.Valid() && WellFormed(m)
    ensures WellFormed(Pruned(b, m))
  {
    if m != [] {
      var init, last := m[..|m| - 1], m[|m| - 1];
      assert WellFormed(init) by {
        forall i | 0 <= i < |init| ensures init[i] == m[i] {}
      }
      PrunedWellFormed(b, init);
      PrunedMembers(b, init);
      var p := Pruned(b, init);
      if Legal(b, last.move) {
        forall i | 0 <= i < |p| ensures p[i].move != last.move {
          assert p[i] in init;
          var j :| 0 <= j < |init| && init[j] == p[i];
          assert m[j] == p[i];
        }
      }
    }
  }

  /** A key absent from the memory is absent after phase 2. */
  lemma {:induction false} PrunedKeys(b: Board, m: Memory, k: Move)
    requires b.Valid() && forall j :: 0 <= j < |m| ==> m[j].move != k
    ensures forall j :: 0 <= j < |Pruned(b, m)| ==> Pruned(b, m)[j].move != k
  {
    if m != [] {
      PrunedKeys(b, m[..|m| - 1], k);
    }
  }

  /** Every key of a well-formed memory names valid piles. */
  lemma KeysValid(m: Memory)
    requires WellFormed(m)
    ensures forall j :: 0 <= j < |m| ==> Keys(m)[j].Valid()
  {
    forall j | 0 <= j < |m| ensures Keys(m)[j].Valid() {
      assert m[j] == Entry(DealMove, 4) || Scannable(m[j].move);
    }
  }

  /** The pruning loop's invariant at its end. */
  lemma PrunedWhole(b: Board, m: Memory)
    requires b.Valid()
    ensures Pruned(b, m[..|m|]) + m[|m|..] == Pruned(b, m)
  {
    assert m[..|m|] == m;
    assert m[|m|..] == [];
  }

  /** One iteration of the pruning loop, over a snapshot of the keys: the
      pair at position `i` is deleted exactly when it is illegal. */
  lemma PruneStep(b: Board, snap: Memory, i: nat)
    requires b.Valid() && UniqueKeys(snap) && i < |snap|
    ensures var cur := Pruned(b, snap[..i]) + snap[i..];
      Pruned(b, snap[..i + 1]) + snap[i + 1..] ==
        if Legal(b, snap[i].move) then cur else Delete(cur, snap[i].move)
  {
    var x := snap[i];
    var p := Pruned(b, snap[..i]);
    var rest := snap[i + 1..];
    assert snap[..i + 1][..i] == snap[..i];
    assert Pruned(b, snap[..i + 1]) == p + (if Legal(b, x.move) then [x] else []);
    assert snap[i..] == [x] + rest;
    if !Legal(b, x.move) {
      forall j | 0 <= j < i ensures snap[..i][j].move != x.move {
        assert snap[..i][j] == snap[j];
      }
      PrunedKeys(b, snap[..i], x.move);
      forall j | 0 <= j < |rest| ensures rest[j].move != x.move {
        assert rest[j] == snap[i + 1 + j];
      }
      DeleteSplit(p, x, rest);
      assert p + snap[i..] == p + [x] + rest;
    } else {
      assert p + [x] + rest == p + snap[i..];
    }
  }

  /** Phase 3 only appends, and afterwards the deal entry is stored exactly
      when it was before or the draw pile has cards. */
  lemma WithDealEffect(b: Board, m: Memory)
    requires b.Valid() && WellFormed(m)
    ensures m <= WithDeal(b, m) && WellFormed(WithDeal(b, m))
    ensures DealMove in Keys(WithDeal(b, m)) <==> DealMove in Keys(m) || |b.deck.cards| > 0
  {
    var r := WithDeal(b, m);
    if r != m {
      assert Keys(r) == Keys(m) + [DealMove];
      forall i | 0 <= i < |m| ensures m[i].move != DealMove {
        assert Keys(m)[i] == m[i].move;
      }
    }
  }

  /** An entry the scan adds: a legal pair it considers, new to the memory,
      at the weight `weight_move` gives it. */
  predicate Added(b: Board, m: Memory, e: Entry)
    requires b.Valid()
  {
    && Scannable(e.move)
    && Legal(b, e.move)
    && e.move !in Keys(m)
    && WeightMove(b, e.move.from, e.move.to) == Some(e.weight)
  }

  lemma ConsiderEffect(b: Board, m: Memory, s: PileId, d: PileId)
    requires b.Valid() && s.Valid() && d.Valid() && d != Deck && WellFormed(m)
    ensures var r := Consider(b, m, s, d);
      && m <= r && |r| <= |m| + 1
      && WellFormed(r)
      && (|r| == |m| + 1 ==> Added(b, m, r[|m|]))
      && (Scannable(Move(s, d)) && CanMovePile(b, s, d) ==> Move(s, d) in Keys(r))
  {
    var r := Consider(b, m, s, d);
    if r != m {
      assert Keys(r) == Keys(m) + [Move(s, d)];
      forall i | 0 <= i < |m| ensures m[i].move != Move(s, d) {
        assert Keys(m)[i] == m[i].move;
      }
    }
  }

  /** Two rounds of appending new legal pairs make one. */
  lemma AddedExtends(b: Board, m: Memory, q: Memory, r: Memory)
    requires b.Valid() && m <= q <= r
    requires forall i :: |m| <= i < |q| ==> Added(b, m, q[i])
    requires forall i :: |q| <= i < |r| ==> Added(b, q, r[i])
    ensures forall i :: |m| <= i < |r| ==> Added(b, m, r[i])
  {
    KeysGrow(m, q);
    forall i | |m| <= i < |r| ensures Added(b, m, r[i]) {
      if i < |q| {
        assert r[i] == q[i];
      }
    }
  }

  /** The inner loop only appends pairs it considers, legal and new, at their
      weight, and afterwards every legal pair from `s` to the first `n`
      destinations is stored. */
  lemma {:induction false} ScanRowEffect(b: Board, m: Memory, s: PileId, n: nat)
    requires b.Valid() && s.Valid() && n <= 11 && WellFormed(m)
    ensures var r := ScanRow(b, m, s, n);
      && m <= r && WellFormed(r)
      && (forall i :: |m| <= i < |r| ==> Added(b, m, r[i]))
      && (forall k :: 0 <= k < n && Scannable(Move(s, TargetAt(k))) && CanMovePile(b, s, TargetAt(k)) ==>
            Move(s, TargetAt(k)) in Keys(r))
  {
    if n > 0 {
      ScanRowEffect(b, m, s, n - 1);
      var q := ScanRow(b, m, s, n - 1);
      var d := TargetAt(n - 1);
      var r := Consider(b, q, s, d);
      assert r == ScanRow(b, m, s, n);
      ConsiderEffect(b, q, s, d);
      assert forall i :: |q| <= i < |r| ==> r[i] == r[|q|];
      AddedExtends(b, m, q, r);
      KeysGrow(q, r);
      forall k | 0 <= k < n && Scannable(Move(s, TargetAt(k))) && CanMovePile(b, s, TargetAt(k))
        ensures Move(s, TargetAt(k)) in Keys(r)
      {
        if k < n - 1 {
          assert Move(s, TargetAt(k)) in Keys(q);
        }
      }
    }
  }

  /** The outer loop: the same over the first `n` sources. */
  lemma {:induction false} ScanFromEffect(b: Board, m: Memory, n: nat)
    requires b.Valid() && n <= 12 && WellFormed(m)
    ensures var r := ScanFrom(b, m, n);
      && m <= r && WellFormed(r)
      && (forall i :: |m| <= i < |r| ==> Added(b, m, r[i]))
      && (forall s, d :: Scannable(Move(s, d)) && SourceIndex(s) < n && CanMovePile(b, s, d) ==>
            Move(s, d) in Keys(r))
  {
    if n > 0 {
      ScanFromEffect(b, m, n - 1);
      var q := ScanFrom(b, m, n - 1);
      var src := SourceAt(n - 1);
      ScanRowEffect(b, q, src, 11);
      var r := ScanFrom(b, m, n);
      AddedExtends(b, m, q, r);
      forall s, d | Scannable(Move(s, d)) && SourceIndex(s) < n && CanMovePile(b, s, d)
        ensures Move(s, d) in Keys(r)
      {
        if SourceIndex(s) == n - 1 {
          assert TargetAt(TargetIndex(d)) == d;
        }
      }
    }
  }

  lemma PrefixMembers(m: Memory, r: Memory)
    requires m <= r
    ensures forall e :: e in m ==> e in r
  {
    forall e | e in m ensures e in r {
      var j :| 0 <= j < |m| && m[j] == e;
      assert r[j] == e;
    }
  }

  /** Deleting keeps the memory well formed. */
  lemma DeleteWellFormed(m: Memory, k: Move)
    requires WellFormed(m)
    ensures WellFormed(Delete(m, k))
  {
    DeleteUnique(m, k);
    DeleteRemoves(m, k);
    var r := Delete(m, k);
    forall i | 0 <= i < |r| ensures r[i] == Entry(DealMove, 4) || Scannable(r[i].move) {
      assert r[i] in m;
    }
  }

  /** A well-formed memory that holds the deal key holds it at weight 4. */
  lemma DealEntryWeighsFour(m: Memory)
    requires WellFormed(m) && DealMove in Keys(m)
    ensures Entry(DealMove, 4) in m
  {
    var j :| 0 <= j < |m| && Keys(m)[j] == DealMove;
    assert m[j].move == DealMove && !Scannable(DealMove);
    assert m[j] == Entry(DealMove, 4);
  }

  /** Phases 1 to 3 leave a well-formed memory whose entries are the deal
      entry or legal pairs the scan considers, and which holds the deal key
      exactly when the draw pile has cards. */
  lemma PreScanContents(b: Board, m: Memory, best: Option<Move>) returns (m3: Memory)
    requires b.Valid() && WellFormed(m) && Remembered(best)
    ensures m3 == WithDeal(b, Pruned(b, Reinforced(b, m, best)))
    ensures WellFormed(m3)
    ensures forall e :: e in m3 ==> e == Entry(DealMove, 4) || (Scannable(e.move) && Legal(b, e.move))
    ensures DealMove in Keys(m3) <==> |b.deck.cards| > 0
  {
    var m1 := Reinforced(b, m, best);
    ReinforcedEffect(b, m, best);
    var m2 := Pruned(b, m1);
    PrunedWellFormed(b, m1);
    PrunedMembers(b, m1);
    m3 := WithDeal(b, m2);
    WithDealEffect(b, m2);
    forall e | e in m3 ensures e == Entry(DealMove, 4) || (Scannable(e.move) && Legal(b, e.move)) {
      if e in m2 {
        var j :| 0 <= j < |m1| && m1[j] == e;
      }
    }
    if DealMove in Keys(m2) {
      var j :| 0 <= j < |m2| && Keys(m2)[j] == DealMove;
      assert m2[j] in m2;
      if |b.deck.cards| == 0 {
        MovePileNeedsFaceUp(b, Deck, Deck);
      }
    }
  }

  /** The memory `AutoMove` selects from is well formed and holds the deal
      entry, at weight 4, exactly when the draw pile has cards; every other
      entry is a pair the scan considers and legal now; and every legal pair
      the scan considers is stored. */
  lemma RefreshedContents(b: Board, m: Memory, best: Option<Move>)
    requires b.Valid() && WellFormed(m) && Remembered(best)
    ensures var r := Refreshed(b, m, best);
      && WellFormed(r)
      && (forall e :: e in r ==> e == Entry(DealMove, 4) || (Scannable(e.move) && Legal(b, e.move)))
      && (forall s, d :: Scannable(Move(s, d)) && CanMovePile(b, s, d) ==> Move(s, d) in Keys(r))
      && (DealMove in Keys(r) <==> |b.deck.cards| > 0)
      && (|b.deck.cards| > 0 ==> Entry(DealMove, 4) in r)
  {
    var m3 := PreScanContents(b, m, best);
    var r := ScanFrom(b, m3, 12);
    ScanFromEffect(b, m3, 12);
    KeysGrow(m3, r);
    assert r == Refreshed(b, m, best);
    forall e | e in r ensures e == Entry(DealMove, 4) || (Scannable(e.move) && Legal(b, e.move)) {
      var i :| 0 <= i < |r| && r[i] == e;
      if i < |m3| {
        assert m3[i] == e;
      }
    }
    if DealMove in Keys(r) {
      var j :| 0 <= j < |r| && Keys(r)[j] == DealMove;
      assert r[j].move == DealMove && !Scannable(DealMove);
      assert j < |m3|;
      assert Keys(m3)[j] == DealMove;
      DealEntryWeighsFour(r);
    }
  }

  /** The solver runs out of moves (and `min` raises) exactly when the draw
      pile is empty and no pair the scan considers is legal. */
  lemma NoMovesOnlyWhenStuck(b: Board, m: Memory, best: Option<Move>)
    requires b.Valid() && WellFormed(m) && Remembered(best)
    ensures Refreshed(b, m, best) == [] <==>
      |b.deck.cards| == 0 && forall s, d :: Scannable(Move(s, d)) ==> !CanMovePile(b, s, d)
  {
    RefreshedContents(b, m, best);
    var r := Refreshed(b, m, best);
    if r != [] && |b.deck.cards| == 0 {
      assert r[0] in r;
      assert r[0] != Entry(DealMove, 4) by {
        assert Keys(r)[0] == r[0].move;
      }
      assert Scannable(Move(r[0].move.from, r[0].move.to)) && CanMovePile(b, r[0].move.from, r[0].move.to);
    }
  }

  /** The reverse of the last move, when legal, is stored at 99 and the scan
      does not re-weight it. */
  lemma RefreshedReverse(b: Board, m: Memory, best: Option<Move>)
    requires b.Valid() && WellFormed(m) && Remembered(best)
    requires best.Some? && best.value.from != Deck && CanMovePile(b, best.value.to, best.value.from)
    ensures Entry(Move(best.value.to, best.value.from), 99) in Refreshed(b, m, best)
  {
    var m1 := Reinforced(b, m, best);
    ReinforcedEffect(b, m, best);
    var m2 := Pruned(b, m1);
    PrunedMembers(b, m1);
    PrunedWellFormed(b, m1);
    var m3 := WithDeal(b, m2);
    WithDealEffect(b, m2);
    ScanFromEffect(b, m3, 12);
    PrefixMembers(m2, m3);
    PrefixMembers(m3, ScanFrom(b, m3, 12));
  }

  /** An entry that is still legal keeps its place's weight: only the reverse
      of the last move is ever re-weighted. */
  lemma RefreshedKeeps(b: Board, m: Memory, best: Option<Move>, e: Entry)
    requires b.Valid() && WellFormed(m) && Remembered(best)
    requires e in m && Legal(b, e.move)
    requires best.None? || e.move != Move(best.value.to, best.value.from)
    ensures e in Refreshed(b, m, best)
  {
    var m1 := Reinforced(b, m, best);
    ReinforcedEffect(b, m, best);
    var m2 := Pruned(b, m1);
    PrunedMembers(b, m1);
    PrunedWellFormed(b, m1);
    var m3 := WithDeal(b, m2);
    WithDealEffect(b, m2);
    ScanFromEffect(b, m3, 12);
    PrefixMembers(m2, m3);
    PrefixMembers(m3, ScanFrom(b, m3, 12));
  }

  /** The selected move is the first entry of least weight, and the memory
      keeps every other entry in order. */
  lemma ChooseFirstMinimum(m: Memory)
    requires UniqueKeys(m) && m != []
    ensures exists i ::
      && 0 <= i < |m|
      && Choose(m) == Ok((m[i].move, m[..i] + m[i + 1..]))
      && (forall j :: 0 <= j < |m| ==> m[i].weight <= m[j].weight)
      && (forall j :: 0 <= j < i ==> m[i].weight < m[j].weight)
  {
    var i := FirstMinimum(m);
    DeleteAt(m, i);
    assert Choose(m) == Ok((m[i].move, m[..i] + m[i + 1..]));
  }

  /** What the refreshed memory guarantees: every entry is the deal entry,
      stored only while the draw pile has cards, or a legal pair the scan
      considers. */
  predicate Playable(b: Board, m: Memory)
    requires b.Valid()
  {
    && WellFormed(m)
    && (forall e :: e in m ==> e == Entry(DealMove, 4) || (Scannable(e.move) && Legal(b, e.move)))
    && (DealMove in Keys(m) ==> |b.deck.cards| > 0)
  }

  /** The selected move is a deal from a non-empty draw pile or a legal
      `move_pile`, and playing it keeps the board valid and every card on it
      (a run moved onto its own pile aside). */
  lemma ChosenIsPlayable(b: Board, m: Memory)
    requires b.Valid() && Playable(b, m) && m != []
    ensures var mv := Choose(m).value.0;
      && mv.Valid()
      && (mv.to == Deck ==> mv == DealMove && |b.deck.cards| > 0)
      && (mv.to != Deck ==> CanMovePile(b, mv.from, mv.to))
      && Apply(b, mv).Valid()
      && (mv.from != mv.to ==> CardsOf(Apply(b, mv)) == CardsOf(b))
  {
    var i := FirstMinimum(m);
    var mv := m[i].move;
    assert m[i] in m;
    if mv.to == Deck {
      DealRule(b, 3);
      assert Keys(m)[i] == DealMove;
    } else {
      MovePileKeepsValid(b, mv.from, mv.to);
    }
  }

  // ---------------------------------------------------------------------
  // AutoMove

  /** `AutoMove`: the memory of weighted candidate moves and the move made
      last. Each call makes one move on a `Game.Solitaire`. */
  class AutoMove {
    var moves: Memory
    var bestMove: Option<Move>

    predicate Valid()
      reads this
    {
      WellFormed(moves) && Remembered(bestMove)
    }

    constructor ()
      ensures Valid() && moves == [] && bestMove == None
    {
      moves := [];
      bestMove := None;
    }

    /** `AutoMove.__call__`: refresh the memory, then play its first entry
        of least weight. When the memory ends up empty, `min` raises and no
        move is made. The probes `move_pile(..., move=False)` of the phases
        are `CanMovePile` on the board, which `Game.Solitaire.MovePile`
        computes without changing a pile. */
    method Call(game: Game.Solitaire) returns (r: Result<bool, SolverError>)
      requires Valid() && game.Valid()
      modifies this, game.deck, game.piles, game.homes
      ensures Valid() && game.Valid()
      ensures var m := Refreshed(old(game.State()), old(moves), old(bestMove));
        && (m == [] ==>
              r == Err(NoMoves) && moves == m && bestMove == old(bestMove) && game.State() == old(game.State()))
        && (m != [] ==>
              && r == Ok(true) && bestMove.Some? && Choose(m) == Ok((bestMove.value, moves))
              && game.State() == Apply(old(game.State()), bestMove.value))
    {
      var board := game.State();
      Refresh(board);
      assert game.Valid() && game.State() == board;
      if moves == [] {
        return Err(NoMoves);
      }
      r := PlayBest(game, board);
    }

    /** The end of `__call__` once the memory is refreshed: select the move
        and play it. */
    method PlayBest(game: Game.Solitaire, ghost board: Board)
      returns (r: Result<bool, SolverError>)
      requires Valid() && game.Valid() && game.State() == board
      requires board.Valid() && Playable(board, moves) && moves != []
      modifies this`moves, this`bestMove, game.deck, game.piles, game.homes
      ensures Valid() && game.Valid()
      ensures r == Ok(true) && bestMove.Some? && Choose(old(moves)) == Ok((bestMove.value, moves))
      ensures game.State() == Apply(board, bestMove.value)
    {
      ChosenIsPlayable(board, moves);
      var best := Select(game);
      r := Play(game, best);
    }

    /** `best_move = min(moves, key=moves.get)` and `del moves[best_move]`;
        only the solver's own fields change, the game is as it was. */
    method Select(ghost game: Game.Solitaire) returns (best: Move)
      requires WellFormed(moves) && moves != [] && game.Valid()
      modifies this`moves, this`bestMove
      ensures Valid()
      ensures Choose(old(moves)) == Ok((best, moves)) && bestMove == Some(best)
      ensures game.Valid() && game.State() == old(game.State())
    {
      var i := FirstMinimum(moves);
      best := moves[i].move;
      assert moves[i] in moves;
      assert Keys(moves)[i] == best;
      bestMove := Some(best);
      DeleteWellFormed(moves, best);
      moves := Delete(moves, best);
    }

    /** The four phases that bring the memory up to date with the board. */
    method Refresh(board: Board)
      requires Valid() && board.Valid()
      modifies this`moves
      ensures Valid()
      ensures moves == Refreshed(board, old(moves), bestMove)
      ensures Playable(board, moves)
    {
      RefreshedContents(board, moves, bestMove);
      ReinforceReverse(board);
      PruneIllegal(board);
      AddDeal(board);
      ScanMoves(board);
    }

    /** Playing the selected move: `deal()` when its destination is the draw
        pile, `move_pile(*best_move)` otherwise. */
    method Play(game: Game.Solitaire, best: Move) returns (r: Result<bool, SolverError>)
      requires game.Valid() && best.Valid()
      requires best.to == Deck || CanMovePile(game.State(), best.from, best.to)
      modifies game.deck, game.piles, game.homes
      ensures game.Valid()
      ensures r == Ok(true) && game.State() == Apply(old(game.State()), best)
    {
      if best.to == Deck {
        var ok := game.Deal(3);
        r := Ok(ok);
      } else {
        var ok := game.MovePile(best.from, best.to, true);
        r := Ok(ok);
      }
    }

    /** Phase 1: `moves[(B, A)] = 99` when the last move `A -> B` did not
        come from the draw pile and `B -> A` is legal. */
    method ReinforceReverse(board: Board)
      requires Valid() && board.Valid()
      modifies this`moves
      ensures Valid()
      ensures moves == Reinforced(board, old(moves), bestMove)
    {
      ReinforcedEffect(board, moves, bestMove);
      if bestMove.Some? && bestMove.value.from != Deck {
        var back := CanMovePile(board, bestMove.value.to, bestMove.value.from);
        if back {
          moves := Put(moves, Move(bestMove.value.to, bestMove.value.from), 99);
        }
      }
    }

    /** Phase 2: over a snapshot of the keys, delete each pair that
        `move_pile(..., move=False)` rejects. */
    method PruneIllegal(board: Board)
      requires Valid() && board.Valid()
      modifies this`moves
      ensures Valid()
      ensures moves == Pruned(board, old(moves))
    {
      ghost var snapshot := moves;
      PrunedWellFormed(board, snapshot);
      var keys := Keys(moves);
      KeysValid(snapshot);
      assert snapshot[..0] == [] && snapshot[0..] == snapshot;
      for i := 0 to |keys|
        invariant moves == Pruned(board, snapshot[..i]) + snapshot[i..]
      {
        PruneKey(board, snapshot, i, keys[i]);
      }
      PrunedWhole(board, snapshot);
    }

    /** One iteration of phase 2: `del moves[key]` when `key`, the pair at
        position `i` of the keys listed before the loop, is illegal. */
    method PruneKey(board: Board, ghost snapshot: Memory, ghost i: nat, key: Move)
      requires board.Valid() && UniqueKeys(snapshot) && i < |snapshot|
      requires key == snapshot[i].move && key.Valid()
      requires moves == Pruned(board, snapshot[..i]) + snapshot[i..]
      modifies this`moves
      ensures moves == Pruned(board, snapshot[..i + 1]) + snapshot[i + 1..]
    {
      PruneStep(board, snapshot, i);
      var ok := CanMovePile(board, key.from, key.to);
      assert ok == Legal(board, key);
      if !ok {
        moves := Delete(moves, key);
      }
    }

    /** Phase 3: store the deal entry when it is absent and the draw pile
        has cards. */
    method AddDeal(board: Board)
      requires Valid() && board.Valid()
      modifies this`moves
      ensures Valid()
      ensures moves == WithDeal(board, old(moves))
    {
      WithDealEffect(board, moves);
      if DealMove !in Keys(moves) && |board.deck.cards| > 0 {
        var w := WeightMove(board, Deck, Deck);
        moves := moves + [Entry(DealMove, w.value)];
      }
    }

    /** Phase 4: the outer loop over the sources. */
    method ScanMoves(board: Board)
      requires Valid() && board.Valid()
      modifies this`moves
      ensures Valid()
      ensures moves == ScanFrom(board, old(moves), 12)
    {
      ghost var m0 := moves;
      for k := 0 to 12
        invariant Valid()
        invariant moves == ScanFrom(board, m0, k)
      {
        ScanSource(board, SourceAt(k));
      }
    }

    /** The inner loop over the destinations for one source: a pair is
        added, with its weight, when it is not foundation to foundation, not
        stored yet, and legal. */
    method ScanSource(board: Board, s: PileId)
      requires Valid() && board.Valid() && s.Valid()
      modifies this`moves
      ensures Valid()
      ensures moves == ScanRow(board, old(moves), s, 11)
    {
      ghost var m0 := moves;
      for k := 0 to 11
        invariant Valid()
        invariant moves == ScanRow(board, m0, s, k)
      {
        var d := TargetAt(k);
        ConsiderEffect(board, moves, s, d);
        if s.Home? && d.Home? {
          continue;
        }
        if Move(s, d) !in Keys(moves) {
          var ok := CanMovePile(board, s, d);
          if ok {
            var w := WeightMove(board, s, d);
            moves := moves + [Entry(Move(s, d), w.value)];
          }
        }
      }
    }
  }

  // ---------------------------------------------------------------------
  // create_complete_game

  /** A built tableau column of twelve cards, King down to 2, the King of
      suit `hi` and the suits alternating between `hi` and `lo`. */
  function Column(hi: Suit, lo: Suit): (cs: seq<Card>)
    ensures |cs| == 12
  {
    seq(12, k requires 0 <= k < 12 => Card(13 - k, if k % 2 == 0 then hi else lo))
  }

  /** `create_complete_game()`: the four Aces face down in the draw pile,
      the first four tableau piles built from King to 2 in alternating
      colours and all face up, the other three tableau piles and the
      foundations empty. */
  function CompleteGame(): (b: Board)
    ensures b.Shaped()
  {
    Board(Pile([Card(1, Spade), Card(1, Heart), Card(1, Club), Card(1, Diamond)], 4),
      [Pile(Column(Spade, Heart), 0), Pile(Column(Heart, Spade), 0),
       Pile(Column(Club, Diamond), 0), Pile(Column(Diamond, Club), 0),
       EmptyPile, EmptyPile, EmptyPile],
      NoHomes)
  }

  /** The debug game is a well-formed board whose four full columns are
      built: every card in them stacks on the card below it. */
  lemma CompleteGameValid()
    ensures CompleteGame().Valid()
    ensures forall i, k :: 0 <= i < 4 && 0 <= k < 11 ==>
      Stacks(CompleteGame().piles[i].cards[k + 1], CompleteGame().piles[i].cards[k])
  {
    var b := CompleteGame();
    forall i, k | 0 <= i < 4 && 0 <= k < 11
      ensures Stacks(b.piles[i].cards[k + 1], b.piles[i].cards[k])
    {
      assert (k + 1) % 2 == 0 <==> k % 2 != 0;
    }
  }

  /** A list of different cards, each of them in `m`, is contained in `m`. */
  lemma {:induction false} DistinctWithin(s: seq<Card>, m: multiset<Card>)
    requires forall i, j :: 0 <= i < j < |s| ==> s[i] != s[j]
    requires forall i :: 0 <= i < |s| ==> s[i] in m
    ensures multiset(s) <= m
  {
    if s != [] {
      var n := |s| - 1;
      var x, init := s[n], s[..n];
      DropLast(s, m);
      DistinctWithin(init, m - multiset{x});
      assert s == init + [x];
      PutBack(multiset(init), m, x);
    }
  }

  /** Without its last card, a list of different cards within `m` is a list
      of different cards within `m` less that card. */
  lemma DropLast(s: seq<Card>, m: multiset<Card>)
    requires s != []
    requires forall i, j :: 0 <= i < j < |s| ==> s[i] != s[j]
    requires forall i :: 0 <= i < |s| ==> s[i] in m
    ensures var init := s[..|s| - 1];
      && (forall i, j :: 0 <= i < j < |init| ==> init[i] != init[j])
      && (forall i :: 0 <= i < |init| ==> init[i] in m - multiset{s[|s| - 1]})
  {
    var n := |s| - 1;
    var x, init := s[n], s[..n];
    forall i | 0 <= i < n ensures init[i] in m - multiset{x} {
      assert init[i] == s[i] && s[i] != x;
    }
  }

  /** A card taken out of `m` and put back alongside what fitted in the
      rest still fits in `m`. */
  lemma PutBack(a: multiset<Card>, m: multiset<Card>, x: Card)
    requires x in m && a <= m - multiset{x}
    ensures a + multiset{x} <= m
  {}

  /** The cards of any one pile of a list lie among the cards of the list. */
  lemma {:induction false} PileWithin(ps: seq<Pile>, i: nat)
    requires i < |ps|
    ensures multiset(ps[i].cards) <= SumCards(ps)
  {
    var n := |ps| - 1;
    if i < n {
      PileWithin(ps[..n], i);
      assert ps[..n][i] == ps[i];
    }
  }

  /** The draw pile and each tableau pile lie within the cards of a board. */
  lemma BoardParts(b: Board)
    ensures multiset(b.deck.cards) <= CardsOf(b)
    ensures forall p :: 0 <= p < |b.piles| ==> multiset(b.piles[p].cards) <= CardsOf(b)
  {
    forall p | 0 <= p < |b.piles| ensures multiset(b.piles[p].cards) <= CardsOf(b) {
      PileWithin(b.piles, p);
    }
  }

  /** Each Ace lies in the draw pile of the debug game. */
  lemma CompleteGameHasAce(suit: Suit)
    ensures Card(1, suit) in CardsOf(CompleteGame())
  {
    var b := CompleteGame();
    BoardParts(b);
    var a := match suit case Spade => 0 case Heart => 1 case Club => 2 case Diamond => 3;
    assert b.deck.cards[a] == Card(1, suit);
  }

  /** The card a column holds at place `k`: value 13 - k, of the King's
      suit at even places and of the other suit at odd ones. */
  lemma ColumnAt(hi: Suit, lo: Suit, k: nat)
    requires k < 12
    ensures Column(hi, lo)[k] == Card(13 - k, if k % 2 == 0 then hi else lo)
  {}

  /** Every card of a tableau pile lies among the cards of the board. */
  lemma CardWithin(b: Board, p: nat, k: nat)
    requires p < |b.piles| && k < |b.piles[p].cards|
    ensures b.piles[p].cards[k] in CardsOf(b)
  {
    BoardParts(b);
  }

  /** Every card of a column the debug game holds lies within the game. */
  lemma ColumnInGame(p: nat, hi: Suit, lo: Suit, k: nat)
    requires p < 4 && CompleteGame().piles[p].cards == Column(hi, lo) && k < 12
    ensures Card(13 - k, if k % 2 == 0 then hi else lo) in CardsOf(CompleteGame())
  {
    CardWithin(CompleteGame(), p, k);
    ColumnAt(hi, lo, k);
  }

  /** A card of value 2 to 13 lies in the column whose King has its suit, or
      has the other suit of its colour, at the place its value gives it. */
  lemma CompleteGameHasPicture(v: int, suit: Suit)
    requires 2 <= v <= 13
    ensures Card(v, suit) in CardsOf(CompleteGame())
  {
    var k := 13 - v;
    var even := k % 2 == 0;
    match suit {
      case Spade => if even { ColumnInGame(0, Spade, Heart, k); } else { ColumnInGame(1, Heart, Spade, k); }
      case Heart => if even { ColumnInGame(1, Heart, Spade, k); } else { ColumnInGame(0, Spade, Heart, k); }
      case Club => if even { ColumnInGame(2, Club, Diamond, k); } else { ColumnInGame(3, Diamond, Club, k); }
      case Diamond => if even { ColumnInGame(3, Diamond, Club, k); } else { ColumnInGame(2, Club, Diamond, k); }
    }
  }

  /** Each card of value 1 to 13 is somewhere in the debug game. */
  lemma CompleteGameHasCard(v: int, suit: Suit)
    requires 1 <= v <= 13
    ensures Card(v, suit) in CardsOf(CompleteGame())
  {
    if v == 1 {
      CompleteGameHasAce(suit);
    } else {
      CompleteGameHasPicture(v, suit);
    }
  }

  /** Every card of the full deck is somewhere in the debug game. */
  lemma CompleteGameHasEvery()
    ensures forall i :: 0 <= i < 52 ==> FullDeck()[i] in CardsOf(CompleteGame())
  {
    forall i | 0 <= i < 52 ensures FullDeck()[i] in CardsOf(CompleteGame()) {
      CompleteGameHasCard(FullDeck()[i].value, FullDeck()[i].suit);
    }
  }

  /** The first `k` piles hold as many cards as the first `k - 1` and pile
      `k - 1`. */
  lemma SumLenPrefix(ps: seq<Pile>, k: nat)
    requires 1 <= k <= |ps|
    ensures SumLen(ps[..k]) == SumLen(ps[..k - 1]) + |ps[k - 1].cards|
  {
    assert ps[..k][..k - 1] == ps[..k - 1];
  }

  /** A board of four draw cards, four tableau piles of twelve, three empty
      ones and empty foundations holds 52 cards. */
  lemma FiftyTwo(b: Board)
    requires |b.deck.cards| == 4 && |b.piles| == 7
    requires forall p :: 0 <= p < 4 ==> |b.piles[p].cards| == 12
    requires forall p :: 4 <= p < 7 ==> b.piles[p].cards == []
    requires forall j :: 0 <= j < |b.homes| ==> b.homes[j].cards == []
    ensures |CardsOf(b)| == 52
  {
    var ps := b.piles;
    SumCardsEmpty(b.homes);
    SumLenSize(ps);
    assert ps[..0] == [] && ps[..7] == ps;
    SumLenPrefix(ps, 1);
    SumLenPrefix(ps, 2);
    SumLenPrefix(ps, 3);
    SumLenPrefix(ps, 4);
    SumLenPrefix(ps, 5);
    SumLenPrefix(ps, 6);
    SumLenPrefix(ps, 7);
  }

  /** The debug game holds 52 cards: 4 Aces and four columns of 12. */
  lemma CompleteGameSize()
    ensures |CardsOf(CompleteGame())| == 52
  {
    FiftyTwo(CompleteGame());
  }

  /** A multiset within another of the same size is that other. */
  lemma FillsAll(d: multiset<Card>, m: multiset<Card>)
    requires d <= m && |d| == |m|
    ensures d == m
  {
    var rest := m - d;
    assert m == d + rest;
  }

  /** The debug game holds the 52 cards of a deck, each once. */
  lemma CompleteGameHoldsDeck()
    ensures CardsOf(CompleteGame()) == multiset(FullDeck())
  {
    var m := CardsOf(CompleteGame());
    CompleteGameHasEvery();
    FullDeckDistinct();
    DistinctWithin(FullDeck(), m);
    CompleteGameSize();
    FillsAll(multiset(FullDeck()), m);
  }
}
