/** The order vector: six counters, one per nesting depth (roman numeral,
    capital letter, number, small letter, parenthesised number, parenthesised
    small letter), and the transitions that move it (outlineize.py:19-80). */
module OrderVector {

  /** A Python list of six ints. */
  type Order = o: seq<int> | |o| == 6 witness [0, 0, 0, 0, 0, 0]

  /** zero_order, the vector before the first marker (outlineize.py:9). */
  const Zero: Order := [0, 0, 0, 0, 0, 0]
  /** base_order, the first point of an outline (outlineize.py:10). */
  const Base: Order := [1, 0, 0, 0, 0, 0]

  /** The members of the Action enum (outlineize.py:19-28). */
  datatype Action = Reset | Continue | Down | Up | Up2 | Up3

  /** Index of the first zero of o at or after from, or |o| when there is none. */
  function FirstZero(o: seq<int>, from: nat): (i: nat)
    requires from <= |o|
    ensures from <= i <= |o|
    ensures i < |o| ==> o[i] == 0
    ensures forall k :: from <= k < i ==> o[k] != 0
    decreases |o| - from
  {
    if from == |o| || o[from] == 0 then from else FirstZero(o, from + 1)
  }

  /** The active depth `pos`: the index before the first zero, or the last
      index when there is no zero.  It is -1 when order[0] is zero. */
  function Depth(o: Order): (d: int)
    ensures -1 <= d <= 5
    ensures forall k :: 0 <= k <= d ==> o[k] != 0
    ensures d < 5 ==> o[d + 1] == 0
  {
    FirstZero(o, 0) - 1
  }

  /** The three facts above determine the depth. */
  lemma DepthIs(o: Order, d: int)
    requires -1 <= d <= 5
    requires forall k :: 0 <= k <= d ==> o[k] != 0
    requires d < 5 ==> o[d + 1] == 0
    ensures Depth(o) == d
  {
  }

  /** The generator expression `next(index - 1 for ... if val == 0, len - 1)`
      (outlineize.py:44, 94, 299), as a loop over the list. */
  method ActiveDepth(order: Order) returns (pos: int)
    ensures pos == Depth(order)
  {
    var index := 0;
    while index < |order| && order[index] != 0
      invariant 0 <= index <= |order|
      invariant forall k :: 0 <= k < index ==> order[k] != 0
    {
      index := index + 1;
    }
    pos := index - 1;
    DepthIs(order, pos);
  }

  /** Python list indexing: a negative index counts from the end. */
  function Py(i: int): nat
    requires -6 <= i < 6
  {
    if i < 0 then i + 6 else i
  }

  /** What change_order makes of the vector (outlineize.py:40-80), the writes
      applied in the order the source performs them.  DOWN at depth 5 would
      write order[6], which raises in Python, hence the precondition. */
  function Apply(a: Action, o: Order): Order
    requires a == Down ==> Depth(o) < 5
  {
    var p := Depth(o);
    match a
    case Continue => o[Py(p) := o[Py(p)] + 1]
    case Reset => Base
    case Down => o[p + 1 := 1]
    case Up =>
      if p == 0 then o[0 := 1]
      else
        var o1 := o[Py(p) := 0];
        o1[Py(p - 1) := o1[Py(p - 1)] + 1]
    case Up2 =>
      if p == 0 || p == 1 then o[0 := 1][1 := 0]
      else
        var o1 := o[Py(p) := 0][Py(p - 1) := 0];
        o1[Py(p - 2) := o1[Py(p - 2)] + 1]
    case Up3 =>
      if 0 <= p <= 2 then o[0 := 1][1 := 0][2 := 0]
      else
        var o1 := o[Py(p) := 0][Py(p - 1) := 0][Py(p - 2) := 0];
        o1[Py(p - 3) := o1[Py(p - 3)] + 1]
  }

  /** change_order (outlineize.py:40-80): every action but RESET updates the
      caller's list in place and returns it; RESET leaves it alone and returns
      a fresh copy of base_order. */
  method ChangeOrder(action: Action, order: array<int>) returns (result: array<int>)
    requires order.Length == 6
    requires action == Down ==> Depth(order[..]) < 5
    modifies order
    ensures result.Length == 6 && result[..] == Apply(action, old(order[..]))
    ensures action == Reset ==> fresh(result) && order[..] == old(order[..])
    ensures action != Reset ==> result == order
  {
    var pos := ActiveDepth(order[..]);
    result := order;
    match action {
      case Continue =>
        order[Py(pos)] := order[Py(pos)] + 1;
      case Reset =>
        result := new int[6](i => if i == 0 then 1 else 0);
        assert result[..] == Base;
      case Down =>
        order[pos + 1] := 1;
      case Up =>
        if pos == 0 {
          order[0] := 1;
        } else {
          order[Py(pos)] := 0;
          order[Py(pos - 1)] := order[Py(pos - 1)] + 1;
        }
      case Up2 =>
        if pos == 0 || pos == 1 {
          order[0] := 1;
          order[1] := 0;
        } else {
          order[Py(pos)] := 0;
          order[Py(pos - 1)] := 0;
          order[Py(pos - 2)] := order[Py(pos - 2)] + 1;
        }
      case Up3 =>
        if 0 <= pos <= 2 {
          order[0] := 1;
          order[1] := 0;
          order[2] := 0;
        } else {
          order[Py(pos)] := 0;
          order[Py(pos - 1)] := 0;
          order[Py(pos - 2)] := 0;
          order[Py(pos - 3)] := order[Py(pos - 3)] + 1;
        }
    }
  }

  /** A well-formed vector: positive counters up to the active depth, zeros
      after it, and at least the top-level counter set. */
  predicate WellFormed(o: Order) {
    Depth(o) >= 0 &&
    forall k :: 0 <= k < 6 ==> (k <= Depth(o) ==> o[k] >= 1) && (Depth(o) < k ==> o[k] == 0)
  }

  /** A vector holding only a positive top-level counter is well formed at
      depth 0. */
  lemma TopOnlyWellFormed(n: int)
    requires n >= 1
    ensures Depth(Zero[0 := n]) == 0 && WellFormed(Zero[0 := n])
  {
    DepthIs(Zero[0 := n], 0);
  }

  /** CONTINUE keeps the depth and adds one at index pos, nothing else. */
  lemma ContinueStep(o: Order)
    requires WellFormed(o)
    ensures var d, r := Depth(o), Apply(Continue, o);
      WellFormed(r) && Depth(r) == d && r[d] == o[d] + 1 &&
      forall k :: 0 <= k < 6 && k != d ==> r[k] == o[k]
  {
    DepthIs(Apply(Continue, o), Depth(o));
  }

  /** DOWN goes one level deeper and starts counting there at 1. */
  lemma DownStep(o: Order)
    requires WellFormed(o) && Depth(o) < 5
    ensures var d, r := Depth(o), Apply(Down, o);
      WellFormed(r) && Depth(r) == d + 1 && r[d + 1] == 1 &&
      forall k :: 0 <= k < 6 && k != d + 1 ==> r[k] == o[k]
  {
    DepthIs(Apply(Down, o), Depth(o) + 1);
  }

  /** UP drops the active counter and counts one more a level higher; at the
      top it restarts the outline at 1. */
  lemma UpStep(o: Order)
    requires WellFormed(o)
    ensures var d, r := Depth(o), Apply(Up, o);
      WellFormed(r) &&
      (d == 0 ==> r == Base) &&
      (d > 0 ==> Depth(r) == d - 1 && r[d - 1] == o[d - 1] + 1 &&
                 forall k :: 0 <= k < d - 1 ==> r[k] == o[k])
  {
    var d, r := Depth(o), Apply(Up, o);
    if d == 0 {
      assert r == Base;
      DepthIs(r, 0);
    } else {
      DepthIs(r, d - 1);
    }
  }

  /** UP2 climbs two levels; from depth 0 or 1 it gives [1, 0, 0, 0, 0, 0]. */
  lemma Up2Step(o: Order)
    requires WellFormed(o)
    ensures var d, r := Depth(o), Apply(Up2, o);
      WellFormed(r) &&
      (d <= 1 ==> r == Base) &&
      (d > 1 ==> Depth(r) == d - 2 && r[d - 2] == o[d - 2] + 1 &&
                 forall k :: 0 <= k < d - 2 ==> r[k] == o[k])
  {
    var d, r := Depth(o), Apply(Up2, o);
    if d <= 1 {
      assert r == Base;
      DepthIs(r, 0);
    } else {
      DepthIs(r, d - 2);
    }
  }

  /** UP3 climbs three levels; from depth 0, 1 or 2 it gives [1, 0, 0, 0, 0, 0]. */
  lemma Up3Step(o: Order)
    requires WellFormed(o)
    ensures var d, r := Depth(o), Apply(Up3, o);
      WellFormed(r) &&
      (d <= 2 ==> r == Base) &&
      (d > 2 ==> Depth(r) == d - 3 && r[d - 3] == o[d - 3] + 1 &&
                 forall k :: 0 <= k < d - 3 ==> r[k] == o[k])
  {
    var d, r := Depth(o), Apply(Up3, o);
    if d <= 2 {
      assert r == Base;
      DepthIs(r, 0);
    } else {
      DepthIs(r, d - 3);
    }
  }

  /** The depth each action leads to from depth d, ascents clamped at the top. */
  function DepthAfter(a: Action, d: int): int {
    match a
    case Reset => 0
    case Continue => d
    case Down => d + 1
    case Up => if d <= 1 then 0 else d - 1
    case Up2 => if d <= 2 then 0 else d - 2
    case Up3 => if d <= 3 then 0 else d - 3
  }

  /** Every transition keeps a vector well-formed, moves its depth as
      DepthAfter says and leaves the counters above the new depth alone. */
  lemma ApplyKeepsWellFormed(a: Action, o: Order)
    requires WellFormed(o)
    requires a == Down ==> Depth(o) < 5
    ensures WellFormed(Apply(a, o))
    ensures Depth(Apply(a, o)) == DepthAfter(a, Depth(o))
    ensures forall k :: 0 <= k < DepthAfter(a, Depth(o)) ==> Apply(a, o)[k] == o[k]
  {
    match a
    case Reset => DepthIs(Base, 0);
    case Continue => ContinueStep(o);
    case Down => DownStep(o);
    case Up => UpStep(o);
    case Up2 => Up2Step(o);
    case Up3 => Up3Step(o);
  }

  /** UP followed by DOWN returns to the same depth with the parent counter
      advanced and the child counter restarted at 1, not restored. */
  lemma UpThenDown(o: Order)
    requires WellFormed(o) && Depth(o) >= 1
    ensures Depth(Apply(Up, o)) == Depth(o) - 1
    ensures var d, r := Depth(o), Apply(Down, Apply(Up, o));
      WellFormed(r) && Depth(r) == d && r[d] == 1 && r[d - 1] == o[d - 1] + 1 &&
      forall k :: 0 <= k < d - 1 ==> r[k] == o[k]
  {
    UpStep(o);
    DownStep(Apply(Up, o));
  }

  /** The worked examples in the comments of the Action enum (outlineize.py:23-28). */
  lemma ActionExamples()
    ensures var o: Order := [2, 1, 3, 1, 0, 0];
      Depth(o) == 3 &&
      Apply(Continue, o) == [2, 1, 3, 2, 0, 0] &&
      Apply(Down, o) == [2, 1, 3, 1, 1, 0] &&
      Apply(Up, o) == [2, 1, 4, 0, 0, 0] &&
      Apply(Up2, o) == [2, 2, 0, 0, 0, 0] &&
      Apply(Up3, o) == [3, 0, 0, 0, 0, 0] &&
      Apply(Reset, o) == [1, 0, 0, 0, 0, 0]
  {
    DepthIs([2, 1, 3, 1, 0, 0], 3);
  }
}
