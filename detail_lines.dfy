/**
 * The two things done to a record's detail lines: squashing them into an
 * `item_id => quantity` map (Hash::combine) and totalling price times
 * quantity.
 */
module DetailLines {
  import opened Tables

  /** The item ids the lines name. */
  function ItemIds(lines: seq<Line>): (ids: set<int>)
    ensures forall i :: 0 <= i < |lines| ==> lines[i].itemId in ids
    ensures forall k :: k in ids ==> exists i :: 0 <= i < |lines| && lines[i].itemId == k
  {
    set i | 0 <= i < |lines| :: lines[i].itemId
  }

  /** Line `i` is the last one that names its item. */
  predicate IsLastFor(lines: seq<Line>, i: int) {
    0 <= i < |lines| && forall j :: i < j < |lines| ==> lines[j].itemId != lines[i].itemId
  }

  /**
   * Hash::combine(lines, '{n}.item_id', '{n}.quantity'): the lines are
   * written into the map in order, so a later line for the same item
   * overwrites an earlier one; quantities are never added up.
   */
  function Squash(lines: seq<Line>): map<int, int> {
    if lines == [] then map[]
    else
      var last := lines[|lines| - 1];
      Squash(lines[..|lines| - 1])[last.itemId := last.quantity]
  }

  /** The squashed map has exactly one key per distinct item id. */
  lemma {:induction false} SquashKeys(lines: seq<Line>)
    ensures Squash(lines).Keys == ItemIds(lines)
  {
    if lines != [] {
      var init := lines[..|lines| - 1];
      SquashKeys(init);
      assert lines == init + [lines[|lines| - 1]];
      forall k | k in ItemIds(lines) ensures k in Squash(lines) {
        var i :| 0 <= i < |lines| && lines[i].itemId == k;
        if i < |lines| - 1 {
          assert init[i].itemId == k;
        }
      }
    }
  }

  /** The value for an item is the quantity of the last line naming it. */
  lemma {:induction false} SquashLastWins(lines: seq<Line>, i: int)
    requires IsLastFor(lines, i)
    ensures lines[i].itemId in Squash(lines)
    ensures Squash(lines)[lines[i].itemId] == lines[i].quantity
  {
    var n := |lines| - 1;
    if i < n {
      var init := lines[..n];
      assert IsLastFor(init, i) by {
        forall j | i < j < |init| ensures init[j].itemId != init[i].itemId {
          assert init[j] == lines[j];
        }
      }
      SquashLastWins(init, i);
    }
  }

  /** Σ price × quantity over the lines, 0 for none. */
  function LineTotal(lines: seq<Line>): int {
    if lines == [] then 0
    else
      var last := lines[|lines| - 1];
      LineTotal(lines[..|lines| - 1]) + last.price * last.quantity
  }

  /**
   * The total does not depend on the order of the lines, which the detail
   * fetch leaves open: any rearrangement of the same lines has the same total.
   */
  lemma {:induction false} LineTotalPermutation(a: seq<Line>, b: seq<Line>)
    requires multiset(a) == multiset(b)
    ensures LineTotal(a) == LineTotal(b)
    decreases |a|
  {
    if a != [] {
      var x := a[0];
      assert x in multiset(b);
      var j :| 0 <= j < |b| && b[j] == x;
      var rest := b[..j] + b[j + 1..];
      assert b == b[..j] + [x] + b[j + 1..];
      assert a == [x] + a[1..];
      assert multiset(b) == multiset(b[..j]) + multiset{x} + multiset(b[j + 1..]);
      assert multiset(a) == multiset{x} + multiset(a[1..]);
      assert multiset(rest) == multiset(b[..j]) + multiset(b[j + 1..]);
      assert multiset(a[1..]) == multiset(a) - multiset{x};
      assert multiset(rest) == multiset(b) - multiset{x};
      LineTotalPermutation(a[1..], rest);
      AppendSum([x], a[1..]);
      AppendSum(b[..j] + [x], b[j + 1..]);
      AppendSum(b[..j], [x]);
      AppendSum(b[..j], b[j + 1..]);
    }
  }

  lemma {:induction false} AppendSum(a: seq<Line>, b: seq<Line>)
    ensures LineTotal(a + b) == LineTotal(a) + LineTotal(b)
  {
    if b != [] {
      var n := |b| - 1;
      assert (a + b)[..|a + b| - 1] == a + b[..n];
      AppendSum(a, b[..n]);
    } else {
      assert a + b == a;
    }
  }

  /** The `foreach` that accumulates `$subTotal` / `$total` over a record's lines. */
  method DetailTotal(lines: seq<Line>) returns (total: int)
    ensures total == LineTotal(lines)
  {
    total := 0;
    var i := 0;
    while i < |lines|
      invariant 0 <= i <= |lines|
      invariant total == LineTotal(lines[..i])
    {
      assert lines[..i + 1][..i] == lines[..i];
      total := total + lines[i].price * lines[i].quantity;
      i := i + 1;
    }
    assert lines[..|lines|] == lines;
  }
}
