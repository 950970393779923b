/** generate_replacement_list (outlineize.py:271-309): one pass over the
    markers found in the outline, threading the order vector and the depth
    of the last rewritten marker, and collecting one replacement per marker.
    The markers are given as the strings the regular expression captured,
    and each marker comes with the line the user would type if asked. */
module Sequencer {
  import opened Wrappers
  import opened PyText
  import opened OrderVector
  import opened Renderer
  import opened Numerals
  import opened Resolver

  /** The loop's variables after some markers: order, pos (None before the
      first rewritten marker) and the replacements so far. */
  datatype Session = Session(order: Order, pos: Option<int>, replacements: seq<string>)

  /** Before the first marker: zero_order, no pos, no replacements. */
  const Start: Session := Session(Zero, None, [])

  /** match_object.group(0): the newline, the marker and the space after it. */
  function MatchText(marker: string): string {
    "\n" + marker + " "
  }

  /** The order after the first marker (outlineize.py:279-290): its roman
      value at depth 0; if that raises, an empty reply leaves zero_order and
      any other reply is read as a code such as 1A1b3. */
  function Seed(marker: string, reply: string): Result<Order> {
    match RomanValue(marker)
    case Ok(n) => Ok(Zero[0 := n])
    case Err(_) => if reply == "" then Ok(Zero) else GetOrderOfNumeral(reply)
  }

  /** A readable roman first marker starts the outline at depth 0 with its
      value, at least 1, as the only counter. */
  lemma SeedRoman(marker: string, reply: string)
    requires IsRoman(marker) && RomanValue(marker).Ok?
    ensures var r := Seed(marker, reply);
      r.Ok? && r.value == Zero[0 := RomanValue(marker).value] && RomanValue(marker).value >= 1 &&
      WellFormed(r.value) && Depth(r.value) == 0
  {
    RomanValueRange(marker);
    TopOnlyWellFormed(RomanValue(marker).value);
  }

  /** The bullet written for a rewritten marker: its indentation, then the
      compact rendering. */
  function Bullet(o: Order): string {
    Tabs(Depth(o)) + "- " + Formatted(o, false)
  }

  /** The replacement and the new pos for one marker (outlineize.py:294-308):
      the marker as found when the order did not change, otherwise the bullet,
      preceded by an empty deeper bullet when the depth went up. */
  function Record(previous: Order, next: Order, pos: Option<int>, marker: string): (string, Option<int>) {
    if next == previous then ("\n\n" + MatchText(marker) + "\n", pos)
    else
      var d := Depth(next);
      var indentation := Tabs(d) + "- ";
      var value :=
        if pos.Some? && pos.value > d then "\t" + indentation + "\n" + Bullet(next) else Bullet(next);
      ("\n\n" + value + "\n", Some(d))
  }

  /** What one turn of the loop produces: the new order, the new pos and
      the replacement appended for the marker. */
  datatype Move = Move(order: Order, pos: Option<int>, entry: string)

  /** One turn of the loop for the marker at index i (outlineize.py:278-308):
      the first-marker rule or next_order, then the replacement. */
  function Advance(s: Session, i: nat, marker: string, reply: string): Result<Move> {
    var next :- if i == 0 then Seed(marker, reply) else Resolve(s.order, marker, reply);
    var (value, pos) := Record(s.order, next, s.pos, marker);
    Ok(Move(next, pos, value))
  }

  /** An unreadable first marker skipped with an empty reply is recovered
      without an error: the order stays zero_order, pos stays unset and the
      marker is kept as the author wrote it. */
  lemma SeedUnreadable(marker: string)
    requires RomanValue(marker).Err?
    ensures Advance(Start, 0, marker, "") == Ok(Move(Zero, None, "\n\n" + MatchText(marker) + "\n"))
  {
  }

  /** The loop's state after the first n markers, or the first error, for a
      given turn function; each successful turn appends its entry. */
  function Walk(turn: (Session, nat, string, string) -> Result<Move>,
                markers: seq<string>, replies: seq<string>, n: nat): (r: Result<Session>)
    requires |replies| == |markers| && n <= |markers|
    ensures r.Ok? ==> |r.value.replacements| == n
  {
    if n == 0 then Ok(Start)
    else
      var s :- Walk(turn, markers, replies, n - 1);
      var m :- turn(s, n - 1, markers[n - 1], replies[n - 1]);
      Ok(Session(m.order, m.pos, s.replacements + [m.entry]))
  }

  /** The loop of generate_replacement_list after the first n markers. */
  function RunTo(markers: seq<string>, replies: seq<string>, n: nat): Result<Session>
    requires |replies| == |markers| && n <= |markers|
  {
    Walk(Advance, markers, replies, n)
  }

  /** What generate_replacement_list returns. */
  function Replacements(markers: seq<string>, replies: seq<string>): Result<seq<string>>
    requires |replies| == |markers|
  {
    var s :- RunTo(markers, replies, |markers|);
    Ok(s.replacements)
  }

  /** A successful turn after a successful walk extends it by its entry. */
  lemma WalkExtends(turn: (Session, nat, string, string) -> Result<Move>,
                    markers: seq<string>, replies: seq<string>, i: nat, s: Session, m: Move)
    requires |replies| == |markers| && i < |markers|
    requires Walk(turn, markers, replies, i) == Ok(s)
    requires turn(s, i, markers[i], replies[i]) == Ok(m)
    ensures Walk(turn, markers, replies, i + 1) == Ok(Session(m.order, m.pos, s.replacements + [m.entry]))
  {
  }

  /** A failing turn after a successful walk ends it with the turn's error. */
  lemma WalkFails(turn: (Session, nat, string, string) -> Result<Move>,
                  markers: seq<string>, replies: seq<string>, i: nat, s: Session)
    requires |replies| == |markers| && i < |markers|
    requires Walk(turn, markers, replies, i) == Ok(s)
    requires turn(s, i, markers[i], replies[i]).Err?
    ensures Walk(turn, markers, replies, i + 1) == Err(turn(s, i, markers[i], replies[i]).error)
  {
  }

  /** Once the walk fails at some marker, every longer walk fails the same way. */
  lemma {:induction false} WalkStopsAt(turn: (Session, nat, string, string) -> Result<Move>,
                                       markers: seq<string>, replies: seq<string>, n: nat, k: nat)
    requires |replies| == |markers| && n <= k <= |markers|
    requires Walk(turn, markers, replies, n).Err?
    ensures Walk(turn, markers, replies, k) == Walk(turn, markers, replies, n)
    decreases k
  {
    if n < k {
      WalkStopsAt(turn, markers, replies, n, k - 1);
    }
  }

  /** A successful walk passed through a successful walk over every shorter
      prefix of the markers, and kept the replacements made there. */
  lemma {:induction false} WalkPrefix(turn: (Session, nat, string, string) -> Result<Move>,
                                      markers: seq<string>, replies: seq<string>, k: nat, n: nat)
    requires |replies| == |markers| && k <= n <= |markers|
    requires Walk(turn, markers, replies, n).Ok?
    ensures Walk(turn, markers, replies, k).Ok?
    ensures Walk(turn, markers, replies, k).value.replacements ==
      Walk(turn, markers, replies, n).value.replacements[..k]
    decreases n
  {
    var whole := Walk(turn, markers, replies, n).value.replacements;
    if k == n {
      assert whole[..k] == whole;
    } else {
      WalkPrefix(turn, markers, replies, k, n - 1);
      assert whole[..k] == whole[..n - 1][..k];
    }
  }

  /** In a successful walk, entry k is what turn k returned on the state
      after the first k markers, and that turn led to the state after k + 1. */
  lemma WalkEntry(turn: (Session, nat, string, string) -> Result<Move>,
                  markers: seq<string>, replies: seq<string>, k: nat, n: nat)
    requires |replies| == |markers| && k < n <= |markers|
    requires Walk(turn, markers, replies, n).Ok?
    ensures Walk(turn, markers, replies, k).Ok? && Walk(turn, markers, replies, k + 1).Ok?
    ensures var before, after :=
        Walk(turn, markers, replies, k).value, Walk(turn, markers, replies, k + 1).value;
      var m := turn(before, k, markers[k], replies[k]);
      m.Ok? && after == Session(m.value.order, m.value.pos, before.replacements + [m.value.entry]) &&
      Walk(turn, markers, replies, n).value.replacements[k] == m.value.entry
  {
    WalkPrefix(turn, markers, replies, k + 1, n);
    var after := Walk(turn, markers, replies, k + 1).value;
    assert Walk(turn, markers, replies, n).value.replacements[k] == after.replacements[k];
  }

  /** A turn keeps pos consistent with the order. */
  lemma AdvanceKeepsConsistent(s: Session, i: nat, marker: string, reply: string)
    requires Consistent(s)
    ensures Advance(s, i, marker, reply).Ok? ==>
      var m := Advance(s, i, marker, reply).value;
      Consistent(Session(m.order, m.pos, s.replacements + [m.entry]))
  {
  }

  /** Every successful run keeps pos consistent with the order. */
  lemma {:induction false} RunConsistent(markers: seq<string>, replies: seq<string>, n: nat)
    requires |replies| == |markers| && n <= |markers|
    ensures RunTo(markers, replies, n).Ok? ==> Consistent(RunTo(markers, replies, n).value)
  {
    if n > 0 {
      RunConsistent(markers, replies, n - 1);
      var prev := RunTo(markers, replies, n - 1);
      if prev.Ok? {
        AdvanceKeepsConsistent(prev.value, n - 1, markers[n - 1], replies[n - 1]);
      }
    }
  }

  /** The i == 0 branch: order[0] takes the roman value; if roman_to_number
      raises, the reply is used instead. */
  method FirstOrder(marker: string, reply: string) returns (r: Result<Order>)
    ensures r == Seed(marker, reply)
  {
    var order := Zero;
    var number := RomanToNumber(marker);
    if number.Ok? {
      order := order[0 := number.value];
    } else if reply != "" {
      r := GetOrderOfNumeral(reply);
      return;
    }
    return Ok(order);
  }

  /** The replacement appended for one marker, and the new pos. */
  method Replacement(oldOrder: Order, order: Order, pos: Option<int>, marker: string)
    returns (entry: string, newPos: Option<int>)
    ensures (entry, newPos) == Record(oldOrder, order, pos, marker)
  {
    var replacementValue;
    newPos := pos;
    if order == oldOrder {
      replacementValue := MatchText(marker);
    } else {
      var formatted, _ := GetFormattedStrings(order, false);
      var nextPos := ActiveDepth(order);
      var indentation := Tabs(nextPos) + "- ";
      replacementValue := indentation + formatted;
      if pos.Some? && pos.value > nextPos {
        replacementValue := "\t" + indentation + "\n" + replacementValue;
      }
      newPos := Some(nextPos);
    }
    entry := "\n\n" + replacementValue + "\n";
  }

  /** After a successful run over the first i markers, turn i either ends
      the whole run with its error or extends the run by its entry. */
  lemma RunContinues(markers: seq<string>, replies: seq<string>, i: nat, s: Session)
    requires |replies| == |markers| && i < |markers|
    requires RunTo(markers, replies, i) == Ok(s)
    ensures var r := Advance(s, i, markers[i], replies[i]);
      (r.Err? ==> Replacements(markers, replies) == Err(r.error)) &&
      (r.Ok? ==>
         RunTo(markers, replies, i + 1) ==
         Ok(Session(r.value.order, r.value.pos, s.replacements + [r.value.entry])))
  {
    var r := Advance(s, i, markers[i], replies[i]);
    if r.Err? {
      WalkFails(Advance, markers, replies, i, s);
      WalkStopsAt(Advance, markers, replies, i + 1, |markers|);
    } else {
      WalkExtends(Advance, markers, replies, i, s, r.value);
    }
  }

  /** The body of the loop for the marker at index i: the next order, then
      the replacement and the new pos. */
  method Turn(s: Session, i: nat, marker: string, reply: string) returns (r: Result<Move>)
    ensures r == Advance(s, i, marker, reply)
  {
    var next;
    if i == 0 {
      next := FirstOrder(marker, reply);
    } else {
      next := NextOrder(s.order, marker, reply);
    }
    if next.Err? {
      return Err(next.error);
    }
    var entry, pos := Replacement(s.order, next.value, s.pos, marker);
    return Ok(Move(next.value, pos, entry));
  }

  /** The loop of generate_replacement_list. */
  method GenerateReplacementList(markers: seq<string>, replies: seq<string>) returns (result: Result<seq<string>>)
    requires |replies| == |markers|
    ensures result == Replacements(markers, replies)
  {
    var order := Zero;
    var replacements: seq<string> := [];
    var pos: Option<int> := None;
    var i := 0;
    while i < |markers|
      invariant 0 <= i <= |markers|
      invariant RunTo(markers, replies, i) == Ok(Session(order, pos, replacements))
    {
      var s := Session(order, pos, replacements);
      var turn := Turn(s, i, markers[i], replies[i]);
      RunContinues(markers, replies, i, s);
      if turn.Err? {
        return Err(turn.error);
      }
      order, pos, replacements := turn.value.order, turn.value.pos, replacements + [turn.value.entry];
      i := i + 1;
    }
    return Ok(replacements);
  }

  /** pos is None only while the order is still zero_order; afterwards it is
      the depth of the current order, since a marker that leaves the order
      unchanged leaves pos unchanged too. */
  predicate Consistent(s: Session) {
    (s.pos.None? ==> s.order == Zero) && (s.pos.Some? ==> s.pos.value == Depth(s.order))
  }

  /** The entry for marker k: the order moves as the first-marker rule or
      next_order says, and the entry is the record of that move. */
  lemma EntryOf(markers: seq<string>, replies: seq<string>, k: nat)
    requires |replies| == |markers| && RunTo(markers, replies, |markers|).Ok? && k < |markers|
    ensures RunTo(markers, replies, k).Ok? && RunTo(markers, replies, k + 1).Ok?
    ensures var before, after :=
        RunTo(markers, replies, k).value, RunTo(markers, replies, k + 1).value;
      Consistent(before) &&
      (k == 0 ==> before == Start && Seed(markers[0], replies[0]) == Ok(after.order)) &&
      (k > 0 ==> Resolve(before.order, markers[k], replies[k]) == Ok(after.order)) &&
      RunTo(markers, replies, |markers|).value.replacements[k] ==
        Record(before.order, after.order, before.pos, markers[k]).0 &&
      after.pos == Record(before.order, after.order, before.pos, markers[k]).1
  {
    WalkEntry(Advance, markers, replies, k, |markers|);
    RunConsistent(markers, replies, k);
  }

  /** A marker whose order did not change keeps the text the author wrote. */
  lemma UnchangedKeepsAuthorText(markers: seq<string>, replies: seq<string>, k: nat)
    requires |replies| == |markers| && RunTo(markers, replies, |markers|).Ok? && k < |markers|
    ensures RunTo(markers, replies, k).Ok? && RunTo(markers, replies, k + 1).Ok?
    ensures RunTo(markers, replies, k + 1).value.order == RunTo(markers, replies, k).value.order ==>
      RunTo(markers, replies, |markers|).value.replacements[k] == "\n\n" + MatchText(markers[k]) + "\n"
  {
    EntryOf(markers, replies, k);
  }

  /** Record for a changed order, with pos the depth of the previous order. */
  lemma RecordOfChange(previous: Order, next: Order, pos: Option<int>, marker: string)
    requires next != previous
    requires pos.Some? ==> pos.value == Depth(previous)
    ensures var d := Depth(next);
      Record(previous, next, pos, marker) == ("\n\n" +
        (if pos.Some? && Depth(previous) > d then "\t" + (Tabs(d) + "- ") + "\n" + Bullet(next) else Bullet(next)) +
        "\n", Some(d))
  {
  }

  /** A marker whose order changed becomes a bullet at the new depth, and pos
      becomes that depth; an empty bullet one level deeper than the new one
      goes first exactly when the depth went up from the previous order (and
      some marker was already rewritten). */
  lemma ChangedIsBullet(markers: seq<string>, replies: seq<string>, k: nat)
    requires |replies| == |markers| && RunTo(markers, replies, |markers|).Ok? && k < |markers|
    ensures RunTo(markers, replies, k).Ok? && RunTo(markers, replies, k + 1).Ok?
    ensures var before, after :=
        RunTo(markers, replies, k).value, RunTo(markers, replies, k + 1).value;
      var d := Depth(after.order);
      after.order != before.order ==>
        after.pos == Some(d) &&
        RunTo(markers, replies, |markers|).value.replacements[k] == "\n\n" +
          (if before.pos.Some? && Depth(before.order) > d
           then "\t" + (Tabs(d) + "- ") + "\n" + Bullet(after.order)
           else Bullet(after.order)) + "\n"
  {
    EntryOf(markers, replies, k);
    var before, after :=
      RunTo(markers, replies, k).value, RunTo(markers, replies, k + 1).value;
    if after.order != before.order {
      RecordOfChange(before.order, after.order, before.pos, markers[k]);
    }
  }

  /** An empty reply at the prompt keeps the previous order, so the marker
      keeps the author's text. */
  lemma SkipKeepsAuthorText(markers: seq<string>, replies: seq<string>, k: nat)
    requires |replies| == |markers| && RunTo(markers, replies, |markers|).Ok? && 0 < k < |markers|
    requires replies[k] == "" && !IsRoman(markers[k])
    ensures RunTo(markers, replies, k).Ok?
    ensures var o := RunTo(markers, replies, k).value.order;
      Depth(o) < 5 && (forall j :: 0 <= j < 4 ==> Proposal(AutoActions[j], o) != markers[k]) ==>
        RunTo(markers, replies, |markers|).value.replacements[k] == "\n\n" + MatchText(markers[k]) + "\n"
  {
    EntryOf(markers, replies, k);
    var o := RunTo(markers, replies, k).value.order;
    if Depth(o) < 5 && forall j :: 0 <= j < 4 ==> Proposal(AutoActions[j], o) != markers[k] {
      ResolveAsksUser(o, markers[k], replies[k]);
    }
  }

  /** The markers of the worked example: a roman top level, two capital
      letters, a number, and the next roman numeral. */
  const ExampleMarkers: seq<string> := ["I.", "A.", "B.", "1.", "II."]
  const ExampleReplies: seq<string> := ["", "", "", "", ""]

  /** One turn after the first in which next_order moves the order. */
  lemma AdvanceMoves(s: Session, i: nat, marker: string, reply: string, next: Order)
    requires i > 0 && Consistent(s)
    requires Resolve(s.order, marker, reply) == Ok(next) && next != s.order
    ensures var d := Depth(next);
      Advance(s, i, marker, reply) ==
        Ok(Move(next, Some(d), "\n\n" +
          (if s.pos.Some? && Depth(s.order) > d then "\t" + (Tabs(d) + "- ") + "\n" + Bullet(next) else Bullet(next)) +
          "\n"))
  {
    RecordOfChange(s.order, next, s.pos, marker);
  }

  lemma ExampleBullet(o: Order, d: nat, body: string)
    requires Depth(o) == d && Body(o, false) == body
    ensures Bullet(o) == Tabs(d) + "- " + Header(d) + "[" + body + "]"
  {
  }

  lemma ExampleSeed0()
    ensures Seed("I.", "") == Ok([1, 0, 0, 0, 0, 0])
  {
    assert Without("I.", '.') == "I";
    assert RomanValue("I.") == Ok(1);
    SameVector(Zero[0 := 1], [1, 0, 0, 0, 0, 0]);
  }

  lemma ExampleBullet0()
    ensures Bullet([1, 0, 0, 0, 0, 0]) == "- ### [1]"
  {
    var o: Order := [1, 0, 0, 0, 0, 0];
    DepthIs(o, 0);
    assert IntToString(1) == "1";
    assert Body(o, false) == "1";
    ExampleBullet(o, 0, "1");
    assert Tabs(0) == "" && Header(0) == "### ";
  }

  lemma ExampleTurn0()
    ensures Advance(Start, 0, "I.", "") == Ok(Move([1, 0, 0, 0, 0, 0], Some(0), "\n\n- ### [1]\n"))
  {
    assert "\n\n" + "- ### [1]" + "\n" == "\n\n- ### [1]\n";
    var o: Order := [1, 0, 0, 0, 0, 0];
    ExampleSeed0();
    ExampleBullet0();
    DepthIs(o, 0);
    assert o[0] != Zero[0];
    assert Record(Zero, o, None, "I.") == ("\n\n- ### [1]\n", Some(0));
  }

  lemma ExampleResolve1()
    ensures Resolve([1, 0, 0, 0, 0, 0], "A.", "") == Ok([1, 1, 0, 0, 0, 0])
  {
    var o: Order := [1, 0, 0, 0, 0, 0];
    var down: Order := [1, 1, 0, 0, 0, 0];
    DepthIs(o, 0);
    assert Apply(Continue, o) == [2, 0, 0, 0, 0, 0];
    DepthIs([2, 0, 0, 0, 0, 0], 0);
    SameVector(Apply(Down, o), down);
    DepthIs(down, 1);
    assert Proposal(Continue, o) == "2";
    assert Proposal(Down, o) == "A.";
    ResolveAutoMatch(o, "A.", "", 1);
  }

  lemma ExampleBullet1()
    ensures Bullet([1, 1, 0, 0, 0, 0]) == "\t- #### [1A]"
  {
    var o: Order := [1, 1, 0, 0, 0, 0];
    DepthIs(o, 1);
    assert Body(o, false) == "1A";
    ExampleBullet(o, 1, "1A");
    assert Tabs(1) == "\t" && Header(1) == "#### ";
  }

  lemma ExampleTurn1(s: Session)
    requires s.order == [1, 0, 0, 0, 0, 0] && s.pos == Some(0)
    ensures Advance(s, 1, "A.", "") == Ok(Move([1, 1, 0, 0, 0, 0], Some(1), "\n\n\t- #### [1A]\n"))
  {
    assert "\n\n" + "\t- #### [1A]" + "\n" == "\n\n\t- #### [1A]\n";
    var next: Order := [1, 1, 0, 0, 0, 0];
    DepthIs(s.order, 0);
    DepthIs(next, 1);
    assert next[1] != s.order[1];
    ExampleResolve1();
    ExampleBullet1();
    AdvanceMoves(s, 1, "A.", "", next);
  }

  lemma ExampleResolve2()
    ensures Resolve([1, 1, 0, 0, 0, 0], "B.", "") == Ok([1, 2, 0, 0, 0, 0])
  {
    var o: Order := [1, 1, 0, 0, 0, 0];
    var next: Order := [1, 2, 0, 0, 0, 0];
    DepthIs(o, 1);
    SameVector(Apply(Continue, o), next);
    DepthIs(next, 1);
    assert Proposal(Continue, o) == "B.";
    ResolveAutoMatch(o, "B.", "", 0);
  }

  lemma ExampleBullet2()
    ensures Bullet([1, 2, 0, 0, 0, 0]) == "\t- #### [1B]"
  {
    var o: Order := [1, 2, 0, 0, 0, 0];
    DepthIs(o, 1);
    assert Body(o, false) == "1B";
    ExampleBullet(o, 1, "1B");
    assert Tabs(1) == "\t" && Header(1) == "#### ";
  }

  lemma ExampleTurn2(s: Session)
    requires s.order == [1, 1, 0, 0, 0, 0] && s.pos == Some(1)
    ensures Advance(s, 2, "B.", "") == Ok(Move([1, 2, 0, 0, 0, 0], Some(1), "\n\n\t- #### [1B]\n"))
  {
    assert "\n\n" + "\t- #### [1B]" + "\n" == "\n\n\t- #### [1B]\n";
    var next: Order := [1, 2, 0, 0, 0, 0];
    DepthIs(s.order, 1);
    DepthIs(next, 1);
    assert next[1] != s.order[1];
    ExampleResolve2();
    ExampleBullet2();
    AdvanceMoves(s, 2, "B.", "", next);
  }

  /** The first two candidates after 1B render as C. and 1. */
  lemma ExampleProposals3()
    ensures var o: Order := [1, 2, 0, 0, 0, 0];
      Apply(Down, o) == [1, 2, 1, 0, 0, 0] && Depth([1, 2, 1, 0, 0, 0]) == 2 &&
      Proposal(Continue, o) == "C." && Proposal(Down, o) == "1."
  {
    var o: Order := [1, 2, 0, 0, 0, 0];
    var cont: Order := [1, 3, 0, 0, 0, 0];
    var down: Order := [1, 2, 1, 0, 0, 0];
    DepthIs(o, 1);
    SameVector(Apply(Continue, o), cont);
    DepthIs(cont, 1);
    SameVector(Apply(Down, o), down);
    DepthIs(down, 2);
    assert IntToString(1) == "1";
  }

  lemma ExampleResolve3()
    ensures Resolve([1, 2, 0, 0, 0, 0], "1.", "") == Ok([1, 2, 1, 0, 0, 0])
  {
    var o: Order := [1, 2, 0, 0, 0, 0];
    ExampleProposals3();
    DepthIs(o, 1);
    ResolveAutoMatch(o, "1.", "", 1);
  }

  lemma ExampleBullet3()
    ensures Bullet([1, 2, 1, 0, 0, 0]) == "\t\t- [1B1]"
  {
    var o: Order := [1, 2, 1, 0, 0, 0];
    DepthIs(o, 2);
    assert IntToString(1) == "1";
    assert Body(o, false) == "1B1";
    ExampleBullet(o, 2, "1B1");
    assert Tabs(2) == "\t\t" && Header(2) == "";
  }

  lemma ExampleTurn3(s: Session)
    requires s.order == [1, 2, 0, 0, 0, 0] && s.pos == Some(1)
    ensures Advance(s, 3, "1.", "") == Ok(Move([1, 2, 1, 0, 0, 0], Some(2), "\n\n\t\t- [1B1]\n"))
  {
    assert "\n\n" + "\t\t- [1B1]" + "\n" == "\n\n\t\t- [1B1]\n";
    var next: Order := [1, 2, 1, 0, 0, 0];
    DepthIs(s.order, 1);
    DepthIs(next, 2);
    assert next[2] != s.order[2];
    ExampleResolve3();
    ExampleBullet3();
    AdvanceMoves(s, 3, "1.", "", next);
  }

  lemma ExampleContinue4()
    ensures Proposal(Continue, [1, 2, 1, 0, 0, 0]) == "2."
  {
    var o: Order := [1, 2, 1, 0, 0, 0];
    var cont: Order := [1, 2, 2, 0, 0, 0];
    DepthIs(o, 2);
    SameVector(Apply(Continue, o), cont);
    DepthIs(cont, 2);
    assert IntToString(2) == "2";
  }

  lemma ExampleDown4()
    ensures Proposal(Down, [1, 2, 1, 0, 0, 0]) == "a."
  {
    var o: Order := [1, 2, 1, 0, 0, 0];
    var down: Order := [1, 2, 1, 1, 0, 0];
    DepthIs(o, 2);
    SameVector(Apply(Down, o), down);
    DepthIs(down, 3);
  }

  lemma ExampleUp4()
    ensures Proposal(Up, [1, 2, 1, 0, 0, 0]) == "C."
  {
    var o: Order := [1, 2, 1, 0, 0, 0];
    var up: Order := [1, 3, 0, 0, 0, 0];
    DepthIs(o, 2);
    SameVector(Apply(Up, o), up);
    DepthIs(up, 1);
  }

  lemma ExampleUp24()
    ensures Proposal(Up2, [1, 2, 1, 0, 0, 0]) == "2"
  {
    var o: Order := [1, 2, 1, 0, 0, 0];
    var up2: Order := [2, 0, 0, 0, 0, 0];
    DepthIs(o, 2);
    SameVector(Apply(Up2, o), up2);
    DepthIs(up2, 0);
    assert IntToString(2) == "2";
  }

  /** The four automatic candidates after 1B1 render as 2., a., C. and 2. */
  lemma ExampleProposals4()
    ensures var o: Order := [1, 2, 1, 0, 0, 0];
      Proposal(Continue, o) == "2." && Proposal(Down, o) == "a." &&
      Proposal(Up, o) == "C." && Proposal(Up2, o) == "2"
  {
    ExampleContinue4();
    ExampleDown4();
    ExampleUp4();
    ExampleUp24();
  }

  lemma ExampleRoman4()
    ensures IsRoman("II.") && RomanValue("II.") == Ok(2)
  {
    assert Without("II.", '.') == "II";
  }

  lemma ExampleNoMatch4()
    ensures forall j :: 0 <= j < 4 ==> Proposal(AutoActions[j], [1, 2, 1, 0, 0, 0]) != "II."
  {
    ExampleProposals4();
    assert AutoActions == [Continue, Down, Up, Up2];
    forall j | 0 <= j < 4
      ensures Proposal(AutoActions[j], [1, 2, 1, 0, 0, 0]) != "II."
    {
      assert j == 0 || j == 1 || j == 2 || j == 3;
    }
  }

  lemma ExampleRestart4()
    ensures Zero[0 := 2] == [2, 0, 0, 0, 0, 0]
  {
    SameVector(Zero[0 := 2], [2, 0, 0, 0, 0, 0]);
  }

  lemma ExampleResolve4()
    ensures Resolve([1, 2, 1, 0, 0, 0], "II.", "") == Ok([2, 0, 0, 0, 0, 0])
  {
    ExampleRestart4();
    var o: Order := [1, 2, 1, 0, 0, 0];
    DepthIs(o, 2);
    ExampleNoMatch4();
    ExampleRoman4();
    ResolveRomanRestart(o, "II.", "");
  }

  lemma ExampleBullet4()
    ensures Bullet([2, 0, 0, 0, 0, 0]) == "- ### [2]"
  {
    var o: Order := [2, 0, 0, 0, 0, 0];
    DepthIs(o, 0);
    assert IntToString(2) == "2";
    assert Body(o, false) == "2";
    ExampleBullet(o, 0, "2");
    assert Tabs(0) == "" && Header(0) == "### ";
  }

  lemma ExampleTurn4(s: Session)
    requires s.order == [1, 2, 1, 0, 0, 0] && s.pos == Some(2)
    ensures Advance(s, 4, "II.", "") == Ok(Move([2, 0, 0, 0, 0, 0], Some(0), "\n\n\t- \n- ### [2]\n"))
  {
    assert "\n\n" + ("\t" + ("" + "- ") + "\n" + "- ### [2]") + "\n" == "\n\n\t- \n- ### [2]\n";
    var next: Order := [2, 0, 0, 0, 0, 0];
    DepthIs(s.order, 2);
    DepthIs(next, 0);
    assert next[0] != s.order[0];
    ExampleResolve4();
    ExampleBullet4();
    AdvanceMoves(s, 4, "II.", "", next);
    assert Tabs(0) == "";
  }

  /** The replacement strings of the worked outline. */
  const ExampleEntries: seq<string> := [
    "\n\n- ### [1]\n",
    "\n\n\t- #### [1A]\n",
    "\n\n\t- #### [1B]\n",
    "\n\n\t\t- [1B1]\n",
    "\n\n\t- \n- ### [2]\n"]

  lemma ExampleRun1(ms: seq<string>, rs: seq<string>)
    requires ms == ExampleMarkers && rs == ExampleReplies
    ensures RunTo(ms, rs, 1) == Ok(Session([1, 0, 0, 0, 0, 0], Some(0), ExampleEntries[..1]))
  {
    assert ms[0] == "I." && rs[0] == "" && ExampleEntries[..1] == ["\n\n- ### [1]\n"];
    assert Start.replacements + [ExampleEntries[0]] == ExampleEntries[..1];
    ExampleTurn0();
    WalkExtends(Advance, ms, rs, 0, Start, Move([1, 0, 0, 0, 0, 0], Some(0), ExampleEntries[0]));
  }

  lemma ExampleRun2(ms: seq<string>, rs: seq<string>)
    requires ms == ExampleMarkers && rs == ExampleReplies
    ensures RunTo(ms, rs, 2) == Ok(Session([1, 1, 0, 0, 0, 0], Some(1), ExampleEntries[..2]))
  {
    assert ExampleEntries[..1] + [ExampleEntries[1]] == ExampleEntries[..2];
    assert ms[1] == "A." && rs[1] == "" && ExampleEntries[1] == "\n\n\t- #### [1A]\n";
    var s := Session([1, 0, 0, 0, 0, 0], Some(0), ExampleEntries[..1]);
    ExampleRun1(ms, rs);
    ExampleTurn1(s);
    WalkExtends(Advance, ms, rs, 1, s, Move([1, 1, 0, 0, 0, 0], Some(1), ExampleEntries[1]));
  }

  lemma ExampleRun3(ms: seq<string>, rs: seq<string>)
    requires ms == ExampleMarkers && rs == ExampleReplies
    ensures RunTo(ms, rs, 3) == Ok(Session([1, 2, 0, 0, 0, 0], Some(1), ExampleEntries[..3]))
  {
    assert ExampleEntries[..2] + [ExampleEntries[2]] == ExampleEntries[..3];
    assert ms[2] == "B." && rs[2] == "" && ExampleEntries[2] == "\n\n\t- #### [1B]\n";
    var s := Session([1, 1, 0, 0, 0, 0], Some(1), ExampleEntries[..2]);
    ExampleRun2(ms, rs);
    ExampleTurn2(s);
    WalkExtends(Advance, ms, rs, 2, s, Move([1, 2, 0, 0, 0, 0], Some(1), ExampleEntries[2]));
  }

  lemma ExampleRun4(ms: seq<string>, rs: seq<string>)
    requires ms == ExampleMarkers && rs == ExampleReplies
    ensures RunTo(ms, rs, 4) == Ok(Session([1, 2, 1, 0, 0, 0], Some(2), ExampleEntries[..4]))
  {
    assert ExampleEntries[..3] + [ExampleEntries[3]] == ExampleEntries[..4];
    assert ms[3] == "1." && rs[3] == "" && ExampleEntries[3] == "\n\n\t\t- [1B1]\n";
    var s := Session([1, 2, 0, 0, 0, 0], Some(1), ExampleEntries[..3]);
    ExampleRun3(ms, rs);
    ExampleTurn3(s);
    WalkExtends(Advance, ms, rs, 3, s, Move([1, 2, 1, 0, 0, 0], Some(2), ExampleEntries[3]));
  }

  /** A worked outline: "I." starts the outline, "A." and "B." go one level
      down and continue there, "1." goes down again, and "II." matches no
      candidate, so its roman value restarts the top level and an empty
      bullet closes the deeper list first. */
  lemma ExampleOutline(ms: seq<string>, rs: seq<string>)
    requires ms == ExampleMarkers && rs == ExampleReplies
    ensures Replacements(ms, rs) == Ok(ExampleEntries)
  {
    assert ExampleEntries[..4] + [ExampleEntries[4]] == ExampleEntries;
    assert ms[4] == "II." && rs[4] == "" && ExampleEntries[4] == "\n\n\t- \n- ### [2]\n";
    var s := Session([1, 2, 1, 0, 0, 0], Some(2), ExampleEntries[..4]);
    ExampleRun4(ms, rs);
    ExampleTurn4(s);
    WalkExtends(Advance, ms, rs, 4, s, Move([2, 0, 0, 0, 0, 0], Some(0), ExampleEntries[4]));
    assert |ms| == 5;
  }
}
