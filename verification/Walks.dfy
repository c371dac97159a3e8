/**
 Scans with a moving offset. An offset that is computed with sums that wrap around may move back, so such a scan
 need not end.
 */
module Walks {
  /** What one turn of a scan comes to. */
  datatype Turn<A> = On(next: nat) | End(answer: A)

  /** At most so many turns after the first one. */
  function Walk<A>(turn: nat -> Turn<A>, offset: nat, turns: nat): Turn<A>
    decreases turns
  {
    var t := turn(offset);
    if t.End? || turns == 0 then t else Walk(turn, t.next, turns - 1)
  }

  datatype Ending<A> = Ends(answer: A) | Endless

  /** What a scan from the beginning comes to, all offsets being at most `bound`. */
  function Walked<A>(turn: nat -> Turn<A>, bound: nat): Ending<A> {
    match Walk(turn, 0, bound + 1)
    case End(answer) => Ends(answer)
    case On(_) => Endless
  }

  ghost predicate Within<A>(turn: nat -> Turn<A>, bound: nat) {
    forall o: nat :: o <= bound && turn(o).On? ==> turn(o).next <= bound
  }

  lemma {:induction false} EndStays<A>(turn: nat -> Turn<A>, offset: nat, turns: nat, more: nat)
    requires Walk(turn, offset, turns).End? && turns <= more
    ensures Walk(turn, offset, more) == Walk(turn, offset, turns)
    decreases turns
  {
    if turn(offset).On? {
      EndStays(turn, turn(offset).next, turns - 1, more - 1);
    }
  }

  // ---------------------------------------------------------------- a scan that comes back never ends

  /** Every turn at one of these offsets leads to one of them, or to `offset`. */
  ghost predicate Closed<A>(turn: nat -> Turn<A>, seen: set<nat>, offset: nat) {
    forall o :: o in seen ==> turn(o).On? && (turn(o).next in seen || turn(o).next == offset)
  }

  lemma {:induction false} Circles<A>(turn: nat -> Turn<A>, seen: set<nat>, offset: nat, k: nat)
    requires offset in seen && Closed(turn, seen, offset)
    ensures forall o :: o in seen ==> Walk(turn, o, k).On?
  {
    if k > 0 {
      Circles(turn, seen, offset, k - 1);
    }
  }

  function UpTo(n: nat): (r: set<nat>)
    ensures |r| == n + 1 && forall o: nat :: o in r <==> o <= n
  {
    if n == 0 then {0} else UpTo(n - 1) + {n}
  }

  lemma {:induction false} FewerThan<T>(a: set<T>, b: set<T>)
    requires a <= b
    ensures |a| <= |b|
  {
    if a != {} {
      var x :| x in a;
      FewerThan(a - {x}, b - {x});
    }
  }

  lemma {:induction false} GoesOn<A>(turn: nat -> Turn<A>, bound: nat, seen: set<nat>, offset: nat, turns: nat, k: nat)
    requires Within(turn, bound) && offset <= bound && seen <= UpTo(bound) && Closed(turn, seen, offset)
    requires turns + |seen| >= bound + 1 && Walk(turn, offset, turns).On?
    ensures Walk(turn, offset, k).On?
    decreases k
  {
    if offset in seen {
      Circles(turn, seen, offset, k);
    } else if k > 0 {
      var more := seen + {offset};
      FewerThan(more, UpTo(bound));
      GoesOn(turn, bound, more, turn(offset).next, if turns == 0 then 0 else turns - 1, k - 1);
    }
  }

  /** A scan that has not ended after one turn for every offset never ends. */
  lemma NeverEnds<A>(turn: nat -> Turn<A>, bound: nat, k: nat)
    requires Within(turn, bound) && Walked(turn, bound).Endless?
    ensures Walk(turn, 0, k).On?
  {
    GoesOn(turn, bound, {}, 0, bound + 1, k);
  }

  // ---------------------------------------------------------------- more input

  /** With more input a turn comes to the same, unless it lacked input. */
  ghost predicate Extends<A>(turn: nat -> Turn<A>, other: nat -> Turn<A>, bound: nat, short: A) {
    forall o: nat :: o <= bound && turn(o) != End(short) ==> other(o) == turn(o)
  }

  lemma {:induction false} SameWalk<A>(turn: nat -> Turn<A>, other: nat -> Turn<A>, bound: nat, short: A,
      offset: nat, turns: nat)
    requires Within(turn, bound) && Extends(turn, other, bound, short) && offset <= bound
    requires Walk(turn, offset, turns) != End(short)
    ensures Walk(other, offset, turns) == Walk(turn, offset, turns)
    decreases turns
  {
    if turn(offset).On? && turns > 0 {
      SameWalk(turn, other, bound, short, turn(offset).next, turns - 1);
    }
  }

  /** What a scan comes to, unless it lacks input, is not changed by more input. */
  lemma WalkedStable<A>(turn: nat -> Turn<A>, other: nat -> Turn<A>, bound: nat, larger: nat, short: A)
    requires Within(turn, bound) && Extends(turn, other, bound, short) && bound <= larger
    requires Walked(turn, bound) != Ends(short)
    ensures Walked(other, larger) == Walked(turn, bound)
  {
    if Walked(turn, bound).Endless? {
      NeverEnds(turn, bound, larger + 1);
    } else {
      EndStays(turn, 0, bound + 1, larger + 1);
    }
    SameWalk(turn, other, bound, short, 0, larger + 1);
  }

  // ---------------------------------------------------------------- a turn that leads back

  /** A scan one of whose turns leads back to its own offset, after any number of turns, never ends. */
  lemma {:induction false} ComesBack<A>(turn: nat -> Turn<A>, offset: nat, k: nat)
    requires turn(offset) == On(offset)
    ensures Walk(turn, offset, k).On?
  {
    if k > 0 {
      ComesBack(turn, offset, k - 1);
    }
  }
}
