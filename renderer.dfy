/** get_outline_formatted_strings (outlineize.py:83-123): the bracketed
    rendering of an order vector and the unit it added last. */
module Renderer {
  import opened PyText
  import opened OrderVector

  /** position_to_header_mapping (outlineize.py:13-16). */
  const HeaderMarks: map<int, string> := map[0 := "###", 1 := "####"]

  /** The markdown header put before the bracket at depth pos. */
  function Header(pos: int): string {
    if pos in HeaderMarks then HeaderMarks[pos] + " " else ""
  }

  /** chr(n % 26 + 64): Python's % with a positive divisor is Dafny's. */
  function UpperLetter(n: int): char {
    (n % 26 + 64) as char
  }

  /** chr(n % 26 + 96). */
  function LowerLetter(n: int): char {
    (n % 26 + 96) as char
  }

  /** The unit each `if pos > k` block would write for depths 0 to 5; the
      depth-5 unit reads order[3] (outlineize.py:121). */
  function AllUnits(o: Order, full: bool): (us: seq<string>)
    ensures |us| == 6
  {
    var wrapStart, wrapEnd := if full then "(" else "", if full then ")" else "";
    var suffix := if full then "." else "";
    [ IntToString(o[0]),
      [UpperLetter(o[1])] + suffix,
      IntToString(o[2]) + suffix,
      [LowerLetter(o[3])] + suffix,
      wrapStart + IntToString(o[4]) + wrapEnd,
      wrapStart + [LowerLetter(o[3])] + wrapEnd ]
  }

  /** The unit written for depth k. */
  function Unit(o: Order, k: nat, full: bool): string
    requires k < 6
  {
    AllUnits(o, full)[k]
  }

  /** The units for depths 0 to k. */
  function Units(o: Order, k: nat, full: bool): (us: seq<string>)
    requires k < 6
    ensures |us| == k + 1
  {
    AllUnits(o, full)[..k + 1]
  }

  function Concat(us: seq<string>): string {
    if us == [] then "" else Concat(us[..|us| - 1]) + us[|us| - 1]
  }

  /** The deepest depth that is rendered: the active depth, or 0 when the
      active depth is -1 (order[0] == 0). */
  function Top(o: Order): nat {
    if Depth(o) < 0 then 0 else Depth(o)
  }

  /** The units for depths 0 to k written one after the other. */
  function Chain(o: Order, k: nat, full: bool): string
    requires k < 6
  {
    if k == 0 then Unit(o, 0, full) else Chain(o, k - 1, full) + Unit(o, k, full)
  }

  /** The text between the brackets. */
  function Body(o: Order, full: bool): string {
    Chain(o, Top(o), full)
  }

  /** outline_formatted_numeral, the first result. */
  function Formatted(o: Order, full: bool): string {
    Header(Depth(o)) + "[" + Body(o, full) + "]"
  }

  /** last_added_order, the second result. */
  function LastUnit(o: Order, full: bool): string {
    Unit(o, Top(o), full)
  }

  lemma {:induction false} ChainIsConcat(o: Order, k: nat, full: bool)
    requires k < 6
    ensures Chain(o, k, full) == Concat(Units(o, k, full))
  {
    if k == 0 {
      assert Units(o, 0, full)[..0] == [];
    } else {
      ChainIsConcat(o, k - 1, full);
      assert Units(o, k, full)[..k] == Units(o, k - 1, full);
    }
  }

  /** get_outline_formatted_strings: the prefix, then one `if pos > k` block
      per depth, each appending the unit it builds. */
  method GetFormattedStrings(order: Order, full: bool) returns (formatted: string, last: string)
    ensures formatted == Formatted(order, full)
    ensures last == LastUnit(order, full)
  {
    var pos := ActiveDepth(order);
    var result := IntToString(order[0]);
    last := result;
    var prefix := "";
    if pos in HeaderMarks {
      prefix := HeaderMarks[pos] + " ";
    }
    assert prefix == Header(Depth(order));
    var wrapStart := if full then "(" else "";
    var wrapEnd := if full then ")" else "";
    var suffix := if full then "." else "";

    ghost var k: nat := 0;
    if pos > 0 {
      last := [UpperLetter(order[1])] + suffix;
      result := result + last;
      assert result == Chain(order, 1, full) && last == Unit(order, 1, full);
      k := 1;
    }
    assert result == Chain(order, k, full) && last == Unit(order, k, full);
    if pos > 1 {
      last := IntToString(order[2]) + suffix;
      result := result + last;
      assert result == Chain(order, 2, full) && last == Unit(order, 2, full);
      k := 2;
    }
    assert result == Chain(order, k, full) && last == Unit(order, k, full);
    if pos > 2 {
      last := [LowerLetter(order[3])] + suffix;
      result := result + last;
      assert result == Chain(order, 3, full) && last == Unit(order, 3, full);
      k := 3;
    }
    assert result == Chain(order, k, full) && last == Unit(order, k, full);
    if pos > 3 {
      last := wrapStart + IntToString(order[4]) + wrapEnd;
      result := result + last;
      assert result == Chain(order, 4, full) && last == Unit(order, 4, full);
      k := 4;
    }
    assert result == Chain(order, k, full) && last == Unit(order, k, full);
    if pos > 4 {
      last := wrapStart + [LowerLetter(order[3])] + wrapEnd;
      result := result + last;
      assert result == Chain(order, 5, full) && last == Unit(order, 5, full);
      k := 5;
    }
    assert k == Top(order);
    assert result == Body(order, full);
    formatted := prefix + "[" + result + "]";
  }

  /** The header is "### " exactly at depth 0, "#### " exactly at depth 1
      and empty at every other depth. */
  lemma HeaderByDepth(o: Order)
    ensures Header(Depth(o)) == "### " <==> Depth(o) == 0
    ensures Header(Depth(o)) == "#### " <==> Depth(o) == 1
    ensures Header(Depth(o)) == "" <==> Depth(o) != 0 && Depth(o) != 1
  {
  }

  /** The body is made of one unit per depth from 0 to the active depth. */
  lemma BodyHasDepthPlusOneUnits(o: Order, full: bool)
    requires Depth(o) >= 0
    ensures var us := Units(o, Top(o), full);
      |us| == Depth(o) + 1 && Body(o, full) == Concat(us) &&
      forall k :: 0 <= k <= Depth(o) ==> us[k] == Unit(o, k, full)
  {
    ChainIsConcat(o, Top(o), full);
  }

  predicate Plain(s: string) {
    forall i :: 0 <= i < |s| ==> s[i] != '.' && s[i] != '(' && s[i] != ')'
  }

  lemma PlainConcat(a: string, b: string)
    requires Plain(a) && Plain(b)
    ensures Plain(a + b)
  {
    forall i | 0 <= i < |a + b|
      ensures (a + b)[i] != '.' && (a + b)[i] != '(' && (a + b)[i] != ')'
    {
      if i >= |a| {
        assert (a + b)[i] == b[i - |a|];
      }
    }
  }

  lemma {:induction false} CompactChainIsPlain(o: Order, k: nat)
    requires k < 6
    ensures Plain(Chain(o, k, false))
  {
    assert Plain(Unit(o, k, false));
    if k > 0 {
      CompactChainIsPlain(o, k - 1);
      PlainConcat(Chain(o, k - 1, false), Unit(o, k, false));
    }
  }

  /** Compact mode (full_repr=False) writes no '.', '(' or ')' anywhere. */
  lemma CompactIsPlain(o: Order)
    ensures Plain(Formatted(o, false))
  {
    CompactChainIsPlain(o, Top(o));
    var h := Header(Depth(o));
    assert Plain(h);
    PlainConcat(h, "[");
    PlainConcat(h + "[", Body(o, false));
    PlainConcat(h + "[" + Body(o, false), "]");
  }

  /** The last unit in full mode: at depth 0 (and -1) the bare str(order[0])
      with no '.'; with a '.' after it at depths 1 to 3; in parentheses at
      depths 4 and 5. */
  lemma LastUnitShape(o: Order)
    ensures var u, d := LastUnit(o, true), Depth(o);
      |u| >= 1 &&
      (d <= 0 ==> u == IntToString(o[0]) && u[|u| - 1] != '.' && u[|u| - 1] != ')') &&
      (1 <= d <= 3 ==> u[|u| - 1] == '.') &&
      (4 <= d ==> u[0] == '(' && u[|u| - 1] == ')')
  {
  }

  /** Letters follow chr(n % 26 + 64) literally: 1 to 25 give A to Y, a
      multiple of 26 gives '@', and the mapping repeats every 26. */
  lemma UpperLetterCycle(n: int)
    ensures UpperLetter(n + 26) == UpperLetter(n)
    ensures n % 26 == 0 <==> UpperLetter(n) == '@'
    ensures n % 26 != 0 ==> 'A' <= UpperLetter(n) <= 'Y' && UpperLetter(n) as int - 64 == n % 26
    ensures UpperLetter(1) == 'A' && UpperLetter(26) == '@' && UpperLetter(27) == 'A'
  {
  }

  /** The same for small letters: 1 to 25 give a to y, a multiple of 26 gives '`'. */
  lemma LowerLetterCycle(n: int)
    ensures LowerLetter(n + 26) == LowerLetter(n)
    ensures n % 26 == 0 <==> LowerLetter(n) == '`'
    ensures n % 26 != 0 ==> 'a' <= LowerLetter(n) <= 'y' && LowerLetter(n) as int - 96 == n % 26
  {
  }

  /** At depth 5 the rendering does not depend on order[5] at all: the last
      unit is built from order[3] (outlineize.py:121). */
  lemma DeepestUnitIgnoresLastCounter(o: Order, o': Order, full: bool)
    requires Depth(o) == 5 && Depth(o') == 5
    requires o[..5] == o'[..5]
    ensures LastUnit(o, full) == LastUnit(o', full)
    ensures Formatted(o, full) == Formatted(o', full)
  {
    assert forall k :: 0 <= k < 5 ==> o[k] == o'[k] by {
      forall k | 0 <= k < 5 ensures o[k] == o'[k] {
        assert o[..5][k] == o[k] && o'[..5][k] == o'[k];
      }
    }
    assert AllUnits(o, full) == AllUnits(o', full);
    assert Chain(o, 0, full) == Chain(o', 0, full);
    assert Chain(o, 1, full) == Chain(o', 1, full);
    assert Chain(o, 2, full) == Chain(o', 2, full);
    assert Chain(o, 3, full) == Chain(o', 3, full);
    assert Chain(o, 4, full) == Chain(o', 4, full);
  }
}
