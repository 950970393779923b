/** next_possibility and next_order (outlineize.py:153-192), with the answer
    typed at the prompt of get_order_advancement_from_user
    (outlineize.py:237-248) given as a parameter. */
module Resolver {
  import opened Wrappers
  import opened PyText
  import opened OrderVector
  import opened Renderer
  import opened Numerals

  /** What an accepted reply asks for: keep the previous order, or one action. */
  datatype Answer = Skip | Pick(action: Action)

  /** The replies the prompt accepts; any other line is asked again. */
  function ParseReply(line: string): Option<Answer> {
    if line == "" then Some(Skip)
    else if line == "c" then Some(Pick(Continue))
    else if line == "d" then Some(Pick(Down))
    else if line == "u" then Some(Pick(Up))
    else if line == "u2" then Some(Pick(Up2))
    else if line == "u3" then Some(Pick(Up3))
    else None
  }

  /** The line a user types for an answer; RESET is not offered. */
  function ReplyFor(a: Answer): string
    requires a != Pick(Reset)
  {
    match a
    case Skip => ""
    case Pick(Continue) => "c"
    case Pick(Down) => "d"
    case Pick(Up) => "u"
    case Pick(Up2) => "u2"
    case Pick(Up3) => "u3"
  }

  /** Every offered answer has exactly one line that selects it, and every
      accepted line selects an offered answer. */
  lemma ReplyRoundTrip(a: Answer, line: string)
    ensures a != Pick(Reset) ==> ParseReply(ReplyFor(a)) == Some(a)
    ensures ParseReply(line).Some? ==>
      ParseReply(line).value != Pick(Reset) && ReplyFor(ParseReply(line).value) == line
  {
  }

  /** The candidates tried automatically, in order; UP3 is computed too but
      never compared (outlineize.py:185-190). */
  const AutoActions: seq<Action> := [Continue, Down, Up, Up2]
  /** All five candidates next_order computes. */
  const Candidates: seq<Action> := [Continue, Down, Up, Up2, Up3]

  /** The full-mode last unit of a candidate, compared with the marker. */
  function Proposal(a: Action, o: Order): string
    requires a == Down ==> Depth(o) < 5
  {
    LastUnit(Apply(a, o), true)
  }

  /** next_possibility: copy the list, change the copy, render it in full. */
  method NextPossibility(action: Action, order: Order) returns (newOrder: Order, last: string)
    requires action == Down ==> Depth(order) < 5
    ensures newOrder == Apply(action, order)
    ensures last == Proposal(action, order)
  {
    var copy := new int[6](i requires 0 <= i < 6 => order[i]);
    assert copy[..] == order;
    var changed := ChangeOrder(action, copy);
    newOrder := changed[..];
    var _, lastAdded := GetFormattedStrings(newOrder, true);
    last := lastAdded;
  }

  /** The first index from `from` on whose automatic candidate renders as the
      marker, or 4 when none does. */
  function FirstMatch(o: Order, marker: string, from: nat): (i: nat)
    requires Depth(o) < 5 && from <= 4
    ensures from <= i <= 4
    ensures i < 4 ==> Proposal(AutoActions[i], o) == marker
    ensures forall j :: from <= j < i ==> Proposal(AutoActions[j], o) != marker
    decreases 4 - from
  {
    if from == 4 || Proposal(AutoActions[from], o) == marker then from
    else FirstMatch(o, marker, from + 1)
  }

  /** What get_order_advancement_from_user returns for a reply.  It builds
      the DOWN candidate first, so at depth 5 it raises IndexError. */
  function UserDecision(o: Order, reply: string): Result<Order> {
    if Depth(o) == 5 then Err(IndexError)
    else match ParseReply(reply)
      case None => Err(NoAnswer(reply))
      case Some(Skip) => Ok(o)
      case Some(Pick(a)) => Ok(Apply(a, o))
  }

  /** next_order: the first automatic candidate that renders as the marker,
      else the roman restart, else the user's decision.  All five candidates
      are built first, so depth 5 raises IndexError before any comparison. */
  function Resolve(o: Order, marker: string, reply: string): Result<Order> {
    if Depth(o) == 5 then Err(IndexError)
    else
      var i := FirstMatch(o, marker, 0);
      if i < 4 then Ok(Apply(AutoActions[i], o))
      else if IsRoman(marker) then
        var n :- RomanValue(marker);
        GetOrderOfNumeral(IntToString(n))
      else UserDecision(o, reply)
  }

  /** get_order_advancement_from_user for one reply: the five candidates are
      built before the reply is read. */
  method GetOrderAdvancementFromUser(previous: Order, reply: string) returns (r: Result<Order>)
    ensures r == UserDecision(previous, reply)
  {
    var pos := ActiveDepth(previous);
    if pos == 5 {
      return Err(IndexError);
    }
    var continueOrder, _ := NextPossibility(Continue, previous);
    var downOrder, _ := NextPossibility(Down, previous);
    var upOrder, _ := NextPossibility(Up, previous);
    var up2Order, _ := NextPossibility(Up2, previous);
    var up3Order, _ := NextPossibility(Up3, previous);
    if reply == "" {
      return Ok(previous);
    } else if reply == "c" {
      return Ok(continueOrder);
    } else if reply == "d" {
      return Ok(downOrder);
    } else if reply == "u" {
      return Ok(upOrder);
    } else if reply == "u2" {
      return Ok(up2Order);
    } else if reply == "u3" {
      return Ok(up3Order);
    }
    return Err(NoAnswer(reply));
  }

  /** The list comprehension building current_possibilities: next_possibility
      for each of the five candidate actions, in order. */
  method CurrentPossibilities(order: Order) returns (possibilities: seq<(Order, string)>)
    requires Depth(order) < 5
    ensures |possibilities| == 5
    ensures forall j :: 0 <= j < 5 ==>
      possibilities[j] == (Apply(Candidates[j], order), Proposal(Candidates[j], order))
  {
    possibilities := [];
    while |possibilities| < 5
      invariant |possibilities| <= 5
      invariant forall j :: 0 <= j < |possibilities| ==>
        possibilities[j] == (Apply(Candidates[j], order), Proposal(Candidates[j], order))
    {
      var next, last := NextPossibility(Candidates[|possibilities|], order);
      possibilities := possibilities + [(next, last)];
    }
  }

  /** next_order: build the five candidates, compare the first four with the
      marker, then fall back on the roman value, then on the user. */
  method NextOrder(order: Order, marker: string, reply: string) returns (r: Result<Order>)
    ensures r == Resolve(order, marker, reply)
  {
    var pos := ActiveDepth(order);
    if pos == 5 {
      return Err(IndexError);
    }
    var possibilities := CurrentPossibilities(order);
    var idx := 0;
    while idx < 4
      invariant 0 <= idx <= 4
      invariant FirstMatch(order, marker, 0) == FirstMatch(order, marker, idx)
    {
      if possibilities[idx].1 == marker {
        assert FirstMatch(order, marker, idx) == idx;
        ResolveAutoMatch(order, marker, reply, idx);
        return Ok(possibilities[idx].0);
      }
      idx := idx + 1;
    }
    assert FirstMatch(order, marker, 0) == 4;
    if IsRoman(marker) {
      ResolveRoman(order, marker, reply);
      var number := RomanToNumber(marker);
      if number.Err? {
        return Err(number.error);
      }
      return GetOrderOfNumeral(IntToString(number.value));
    }
    ResolveAsksUser(order, marker, reply);
    r := GetOrderAdvancementFromUser(order, reply);
  }

  /** The first of CONTINUE, DOWN, UP, UP2 whose last unit is the marker
      wins, whatever the marker and the reply otherwise are. */
  lemma ResolveAutoMatch(o: Order, marker: string, reply: string, i: nat)
    requires Depth(o) < 5 && i < 4
    requires Proposal(AutoActions[i], o) == marker
    requires forall j :: 0 <= j < i ==> Proposal(AutoActions[j], o) != marker
    ensures Resolve(o, marker, reply) == Ok(Apply(AutoActions[i], o))
  {
    var k := FirstMatch(o, marker, 0);
    assert k <= i;
    assert k == i;
  }

  /** With no candidate matching, a marker holding I, V or X is read as a
      roman numeral and its value is parsed back from its decimal text. */
  lemma ResolveRoman(o: Order, marker: string, reply: string)
    requires Depth(o) < 5 && FirstMatch(o, marker, 0) == 4 && IsRoman(marker)
    ensures Resolve(o, marker, reply) ==
      (var n :- RomanValue(marker); GetOrderOfNumeral(IntToString(n)))
  {
  }

  /** When no candidate matches and the marker holds I, V or X, the outline
      restarts at the top level with the marker's roman value. */
  lemma ResolveRomanRestart(o: Order, marker: string, reply: string)
    requires Depth(o) < 5
    requires forall j :: 0 <= j < 4 ==> Proposal(AutoActions[j], o) != marker
    requires IsRoman(marker) && RomanValue(marker).Ok? && RomanValue(marker).value < 100
    ensures var n := RomanValue(marker).value;
      Resolve(o, marker, reply) == Ok(Zero[0 := n]) && n >= 1 &&
      WellFormed(Zero[0 := n]) && Depth(Zero[0 := n]) == 0
  {
    var n := RomanValue(marker).value;
    RomanValueRange(marker);
    TopOnlyWellFormed(n);
    CountNumeral(n);
  }

  /** Only a marker that neither renders as a candidate nor holds I, V or X
      reaches the prompt; in particular UP3 is taken only when asked for. */
  lemma ResolveAsksUser(o: Order, marker: string, reply: string)
    requires Depth(o) < 5
    requires forall j :: 0 <= j < 4 ==> Proposal(AutoActions[j], o) != marker
    requires !IsRoman(marker)
    ensures Resolve(o, marker, reply) == UserDecision(o, reply)
    ensures Resolve(o, marker, reply) == Ok(Apply(Up3, o)) <== reply == "u3"
    ensures Resolve(o, marker, reply) == Ok(o) <== reply == ""
  {
  }

  /** A vector at depth 5 cannot be resolved at all: building the DOWN
      candidate writes order[6]. */
  lemma ResolveDeepest(o: Order, marker: string, reply: string)
    requires Depth(o) == 5
    ensures Resolve(o, marker, reply) == Err(IndexError)
    ensures UserDecision(o, reply) == Err(IndexError)
  {
  }

  /** A top-level unit never ends in '.', so a marker such as "II." is never
      matched by a candidate at depth 0 and always takes the roman path. */
  lemma TopLevelNeverMatched(o: Order, marker: string, i: nat)
    requires Depth(o) < 5 && i < 4
    requires |marker| >= 1 && (marker[|marker| - 1] == '.' || marker[|marker| - 1] == ')')
    requires Depth(Apply(AutoActions[i], o)) <= 0
    ensures Proposal(AutoActions[i], o) != marker
  {
    LastUnitShape(Apply(AutoActions[i], o));
  }

  /** Resolution keeps a vector well-formed, with one exception: a roman
      value of 100 or more is read back through its decimal text, so its
      third digit lands in order[2]. */
  lemma ResolveKeepsWellFormed(o: Order, marker: string, reply: string)
    requires WellFormed(o)
    requires Resolve(o, marker, reply).Ok?
    ensures WellFormed(Resolve(o, marker, reply).value) ||
      (RomanValue(marker).Ok? && RomanValue(marker).value >= 100)
  {
    var i := FirstMatch(o, marker, 0);
    if i < 4 {
      ApplyKeepsWellFormed(AutoActions[i], o);
    } else if IsRoman(marker) {
      var n := RomanValue(marker).value;
      if n < 100 {
        ResolveRomanRestart(o, marker, reply);
      }
    } else {
      match ParseReply(reply)
      case Some(Skip) =>
      case Some(Pick(a)) => ApplyKeepsWellFormed(a, o);
    }
  }

  /** The exception above on a concrete marker: XXXXXXXXXXI is 101, and
      str(101) is read as order[0] = 101 and order[2] = 1. */
  lemma LargeRomanRestart()
    ensures RomanValue("XXXXXXXXXXI.") == Ok(101)
    ensures GetOrderOfNumeral(IntToString(101)) == Ok([101, 0, 1, 0, 0, 0])
    ensures !WellFormed([101, 0, 1, 0, 0, 0])
  {
    LargeRomanSymbols();
    TensThenOne(10);
    ReadBack101();
    NotWellFormed101();
  }

  lemma LargeRomanSymbols()
    ensures Without("XXXXXXXXXXI.", '.') == Tens(10) + "I"
  {
    assert "XXXXXXXXXXI." == Tens(10) + "I.";
    TensWithoutDot(10);
  }

  lemma {:induction false} TensWithoutDot(k: nat)
    ensures Without(Tens(k) + "I.", '.') == Tens(k) + "I"
  {
    if k == 0 {
      assert Without("I.", '.') == "I";
    } else {
      assert (Tens(k) + "I.")[1..] == Tens(k - 1) + "I.";
      TensWithoutDot(k - 1);
      assert Tens(k) + "I" == ['X'] + (Tens(k - 1) + "I");
    }
  }

  /** k copies of X. */
  function Tens(k: nat): string {
    seq(k, _ => 'X')
  }

  lemma {:induction false} TensThenOne(k: nat)
    ensures Fold(Tens(k) + "I") == Ok((10 * k + 1, if k == 0 then 1 else 10))
  {
    if k > 0 {
      assert (Tens(k) + "I")[1..] == Tens(k - 1) + "I";
      TensThenOne(k - 1);
    }
  }

  lemma ReadBack101()
    ensures GetOrderOfNumeral(IntToString(101)) == Ok([101, 0, 1, 0, 0, 0])
  {
    var s := IntToString(101);
    assert s == "101";
    assert DigitsValue(s) == 101 by {
      assert s[..2] == "10" && "10"[..1] == "1";
    }
    assert GetOrderOfNumeral(s).value == Base[0 := 1][0 := 101][2 := 1];
    SameVector(Base[0 := 1][0 := 101][2 := 1], [101, 0, 1, 0, 0, 0]);
  }

  lemma NotWellFormed101()
    ensures !WellFormed([101, 0, 1, 0, 0, 0])
  {
    var bad: Order := [101, 0, 1, 0, 0, 0];
    DepthIs(bad, 0);
    assert Depth(bad) < 2 && bad[2] != 0;
  }
}
