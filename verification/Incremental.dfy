/**
 Incremental parsing in general: a scanner looks at the front of a buffer and either asks for more
 input, takes one item off, or rejects. Feeding input read by read gives the same result as scanning
 it all at once, however it is split.
 */
module Incremental {

  /** What a scanner says of a buffer: `out` is what the item delivers, `last` that the stream ends with it. */
  datatype Verdict<P> = NeedMore | Item(out: seq<P>, size: nat, last: bool) | Reject

  datatype Status = Open | Done | Failed

  datatype Outcome<T, P> = Outcome(pieces: seq<P>, rest: seq<T>, status: Status)

  /** A scanner consumes something with every item and does not change its mind when more input arrives. */
  ghost predicate Lawful<T(!new), P(!new)>(scan: seq<T> -> Verdict<P>) {
    && (forall s :: scan(s).Item? ==> 0 < scan(s).size <= |s|)
    && (forall a, b :: !scan(a).NeedMore? ==> scan(a + b) == scan(a))
  }

  /** Takes items off the front until the scanner stops. */
  ghost function Drain<T(!new), P(!new)>(scan: seq<T> -> Verdict<P>, s: seq<T>): Outcome<T, P>
    requires Lawful(scan)
    decreases |s|
  {
    match scan(s)
    case NeedMore => Outcome([], s, Open)
    case Reject => Outcome([], s, Failed)
    case Item(out, size, last) =>
      if last then Outcome(out, s[size..], Done)
      else var r := Drain(scan, s[size..]); r.(pieces := out + r.pieces)
  }

  /** One more read arrives. */
  ghost function Continue<T(!new), P(!new)>(scan: seq<T> -> Verdict<P>, o: Outcome<T, P>, more: seq<T>): Outcome<T, P>
    requires Lawful(scan)
  {
    if o.status == Open then var r := Drain(scan, o.rest + more); r.(pieces := o.pieces + r.pieces)
    else o.(rest := o.rest + more)
  }

  /** All reads, one after the other. */
  ghost function Feed<T(!new), P(!new)>(scan: seq<T> -> Verdict<P>, parts: seq<seq<T>>): Outcome<T, P>
    requires Lawful(scan)
  {
    if parts == [] then Outcome([], [], Open)
    else Continue(scan, Feed(scan, parts[..|parts| - 1]), parts[|parts| - 1])
  }

  function Flatten<T>(parts: seq<seq<T>>): seq<T> {
    if parts == [] then [] else Flatten(parts[..|parts| - 1]) + parts[|parts| - 1]
  }

  lemma {:induction false} DrainAppend<T(!new), P(!new)>(scan: seq<T> -> Verdict<P>, a: seq<T>, b: seq<T>)
    requires Lawful(scan)
    ensures Drain(scan, a + b) == Continue(scan, Drain(scan, a), b)
    decreases |a|
  {
    if scan(a).NeedMore? {
      var r := Drain(scan, a + b);
      assert [] + r.pieces == r.pieces;
    } else {
      assert scan(a + b) == scan(a);
      if scan(a).Item? && !scan(a).last {
        var out, size := scan(a).out, scan(a).size;
        assert size <= |a| && (a + b)[size..] == a[size..] + b;
        DrainAppend(scan, a[size..], b);
        hide Lawful;
        var r := Drain(scan, a[size..]);
        var more := Drain(scan, r.rest + b);
        assert out + (r.pieces + more.pieces) == out + r.pieces + more.pieces;
      } else if scan(a).Item? {
        assert (a + b)[scan(a).size..] == a[scan(a).size..] + b;
      }
    }
  }

  /** However the input is split into reads, the outcome is that of the whole input. */
  lemma {:induction false} SplitIndependent<T(!new), P(!new)>(scan: seq<T> -> Verdict<P>, parts: seq<seq<T>>)
    requires Lawful(scan) && scan([]).NeedMore?
    ensures Feed(scan, parts) == Drain(scan, Flatten(parts))
  {
    if parts != [] {
      SplitIndependent(scan, parts[..|parts| - 1]);
      DrainAppend(scan, Flatten(parts[..|parts| - 1]), parts[|parts| - 1]);
    }
  }

  // ---------------------------------------------------------------- streams of encoded items

  /** `enc` is an encoding of one item: recognised with anything after it, and not before it is complete. */
  ghost predicate Encodes<T(!new), P(!new)>(scan: seq<T> -> Verdict<P>, enc: seq<T>, out: seq<P>) {
    && enc != []
    && (forall rest :: scan(enc + rest) == Item(out, |enc|, false))
    && (forall k :: 0 <= k < |enc| ==> scan(enc[..k]).NeedMore?)
  }

  ghost predicate EncodeEach<T(!new), P(!new)>(scan: seq<T> -> Verdict<P>, encs: seq<seq<T>>, outs: seq<seq<P>>) {
    |encs| == |outs| && forall i :: 0 <= i < |encs| ==> Encodes(scan, encs[i], outs[i])
  }

  lemma {:induction false} FlattenFront<T>(parts: seq<seq<T>>)
    requires parts != []
    ensures Flatten(parts) == parts[0] + Flatten(parts[1..])
  {
    var last := |parts| - 1;
    if last > 0 {
      FlattenFront(parts[..last]);
      assert parts[..last][1..] == parts[1..][..last - 1];
      var middle := Flatten(parts[1..][..last - 1]);
      assert parts[0] + (middle + parts[last]) == parts[0] + middle + parts[last];
    } else {
      assert parts[..0] == [] && parts[1..] == [];
    }
  }

  /**
   After any prefix of a stream of encoded items, exactly the items that are complete in it have been
   taken, in order, and what is left over is a proper part of the next item's encoding.
   */
  lemma {:induction false} DrainPrefix<T(!new), P(!new)>(
    scan: seq<T> -> Verdict<P>, encs: seq<seq<T>>, outs: seq<seq<P>>, s: seq<T>) returns (k: nat)
    requires Lawful(scan) && EncodeEach(scan, encs, outs) && scan([]).NeedMore?
    requires s <= Flatten(encs)
    ensures k <= |encs|
    ensures Drain(scan, s).status == Open && Drain(scan, s).pieces == Flatten(outs[..k])
    ensures s == Flatten(encs[..k]) + Drain(scan, s).rest
    ensures if k < |encs| then Drain(scan, s).rest < encs[k] else Drain(scan, s).rest == []
  {
    hide Lawful; hide Encodes; hide Drain;
    if encs == [] {
      k := 0;
      DrainNothing(scan, s);
    } else {
      FlattenFront(encs);
      assert Encodes(scan, encs[0], outs[0]);
      var n := |encs[0]|;
      if |s| < n {
        k := 0;
        assert s == encs[0][..|s|] && encs[..0] == [] && outs[..0] == [];
        DrainPart(scan, encs[0], outs[0], s);
      } else {
        assert s == encs[0] + s[n..] && s[n..] <= Flatten(encs[1..]);
        k := DrainPrefix(scan, encs[1..], outs[1..], s[n..]);
        DrainItem(scan, encs[0], outs[0], s[n..]);
        FlattenMore(encs, k);
        FlattenMore(outs, k);
        k := k + 1;
      }
    }
  }

  lemma {:induction false} FlattenSplit<T>(parts: seq<seq<T>>, k: nat)
    requires k <= |parts|
    ensures Flatten(parts) == Flatten(parts[..k]) + Flatten(parts[k..])
  {
    var last := |parts| - 1;
    if k == |parts| {
      assert parts[..k] == parts && parts[k..] == [];
    } else {
      FlattenSplit(parts[..last], k);
      assert parts[..last][..k] == parts[..k] && parts[..last][k..] == parts[k..][..last - k] &&
        parts[k..][last - k] == parts[last];
      var a, b, c := Flatten(parts[..k]), Flatten(parts[k..][..last - k]), parts[last];
      assert Flatten(parts[k..]) == b + c;
      assert a + b + c == a + (b + c);
    }
  }

  lemma FlattenMore<T>(parts: seq<seq<T>>, k: nat)
    requires k < |parts|
    ensures Flatten(parts[..k + 1]) == parts[0] + Flatten(parts[1..][..k])
  {
    FlattenFront(parts[..k + 1]);
    assert parts[..k + 1][1..] == parts[1..][..k];
  }

  lemma DrainNothing<T(!new), P(!new)>(scan: seq<T> -> Verdict<P>, s: seq<T>)
    requires Lawful(scan) && scan(s).NeedMore?
    ensures Drain(scan, s) == Outcome([], s, Open)
  {
  }

  lemma DrainPart<T(!new), P(!new)>(scan: seq<T> -> Verdict<P>, enc: seq<T>, out: seq<P>, s: seq<T>)
    requires Lawful(scan) && Encodes(scan, enc, out) && s < enc
    ensures Drain(scan, s) == Outcome([], s, Open)
  {
    assert s == enc[..|s|];
  }

  lemma DrainItem<T(!new), P(!new)>(scan: seq<T> -> Verdict<P>, enc: seq<T>, out: seq<P>, rest: seq<T>)
    requires Lawful(scan) && Encodes(scan, enc, out)
    ensures var r := Drain(scan, rest); Drain(scan, enc + rest) == r.(pieces := out + r.pieces)
  {
    assert scan(enc + rest) == Item(out, |enc|, false);
    assert (enc + rest)[|enc|..] == rest;
  }

  /** A whole stream of encoded items is taken in full and in order. */
  lemma DrainAll<T(!new), P(!new)>(scan: seq<T> -> Verdict<P>, encs: seq<seq<T>>, outs: seq<seq<P>>)
    requires Lawful(scan) && EncodeEach(scan, encs, outs) && scan([]).NeedMore?
    ensures Drain(scan, Flatten(encs)) == Outcome(Flatten(outs), [], Open)
  {
    var k := DrainPrefix(scan, encs, outs, Flatten(encs));
    if k < |encs| {
      FlattenLength(encs, k);
    }
    assert encs[..k] == encs && outs[..k] == outs;
  }

  /** ... however it is split into reads. */
  lemma DrainWhole<T(!new), P(!new)>(
    scan: seq<T> -> Verdict<P>, encs: seq<seq<T>>, outs: seq<seq<P>>, parts: seq<seq<T>>)
    requires Lawful(scan) && EncodeEach(scan, encs, outs) && scan([]).NeedMore?
    requires Flatten(parts) == Flatten(encs)
    ensures Feed(scan, parts) == Outcome(Flatten(outs), [], Open)
  {
    SplitIndependent(scan, parts);
    DrainAll(scan, encs, outs);
  }

  /** An item that is recognised when complete is not recognised before. */
  lemma CompleteEncodes<T(!new), P(!new)>(scan: seq<T> -> Verdict<P>, enc: seq<T>, out: seq<P>)
    requires Lawful(scan) && enc != [] && forall rest :: scan(enc + rest) == Item(out, |enc|, false)
    ensures Encodes(scan, enc, out)
  {
    assert enc + [] == enc;
    forall k | 0 <= k < |enc| ensures scan(enc[..k]).NeedMore? {
      assert enc[..k] + enc[k..] == enc;
      assert scan(enc) == Item(out, |enc|, false);
    }
  }

  lemma {:induction false} FlattenLength<T>(parts: seq<seq<T>>, k: nat)
    requires k < |parts|
    ensures |Flatten(parts)| >= |Flatten(parts[..k])| + |parts[k]|
  {
    var last := |parts| - 1;
    if k < last {
      FlattenLength(parts[..last], k);
      assert parts[..last][..k] == parts[..k];
    }
  }
}
