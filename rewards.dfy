/**
 * The reward actions of the store: accepting a reward into the recipient's
 * inventory (once), packaging a composed reward for confirmation, and
 * organising a page of rewards for display.
 */
module Rewards {
  import opened Wrappers
  import opened Tables
  import opened DetailLines

  // ----- accept -----

  /** A user's items: `item_id => quantity`. */
  type Items = map<int, int>

  function Get(items: Items, itemId: int): int {
    if itemId in items then items[itemId] else 0
  }

  /** The total quantity the lines give of one item, every line counted. */
  function QuantityOf(lines: seq<Line>, itemId: int): int {
    if lines == [] then 0
    else (if lines[0].itemId == itemId then lines[0].quantity else 0) + QuantityOf(lines[1..], itemId)
  }

  /**
   * The merge loop of `accept`, line by line: an item the user lacks is
   * created with the line's quantity, an item the user has gets the
   * line's quantity added.
   */
  function Merge(items: Items, lines: seq<Line>): Items {
    if lines == [] then items
    else
      var m := Merge(items, lines[..|lines| - 1]);
      var detail := lines[|lines| - 1];
      if detail.itemId !in m then m[detail.itemId := detail.quantity]
      else m[detail.itemId := m[detail.itemId] + detail.quantity]
  }

  lemma {:induction false} QuantityOfSnoc(lines: seq<Line>, itemId: int)
    requires lines != []
    ensures QuantityOf(lines, itemId) ==
      QuantityOf(lines[..|lines| - 1], itemId) + (if lines[|lines| - 1].itemId == itemId then lines[|lines| - 1].quantity else 0)
    decreases |lines|
  {
    if |lines| > 1 {
      QuantityOfSnoc(lines[1..], itemId);
      assert lines[1..][..|lines[1..]| - 1] == lines[..|lines| - 1][1..];
    }
  }

  /**
   * After the merge the user has every item they had plus every item the
   * reward names; each item's quantity is what they had (0 if none) plus
   * the sum over ALL reward lines for it, so duplicate lines add up; items
   * the reward does not name keep their quantity.
   */
  lemma {:induction false} MergeSpec(items: Items, lines: seq<Line>)
    ensures Merge(items, lines).Keys == items.Keys + ItemIds(lines)
    ensures forall k :: k in Merge(items, lines) ==> Merge(items, lines)[k] == Get(items, k) + QuantityOf(lines, k)
    ensures forall k :: k in items && k !in ItemIds(lines) ==> Merge(items, lines)[k] == items[k]
  {
    if lines == [] {
    } else {
      var init := lines[..|lines| - 1];
      var detail := lines[|lines| - 1];
      MergeSpec(items, init);
      assert ItemIds(lines) == ItemIds(init) + {detail.itemId} by {
        forall k | k in ItemIds(lines) ensures k in ItemIds(init) + {detail.itemId} {
          var i :| 0 <= i < |lines| && lines[i].itemId == k;
          if i < |init| { assert init[i] == lines[i]; }
        }
      }
      forall k | k in Merge(items, lines)
        ensures Merge(items, lines)[k] == Get(items, k) + QuantityOf(lines, k)
      {
        QuantityOfSnoc(lines, k);
        if k != detail.itemId && k !in items {
          assert k in ItemIds(init);
        }
        if k == detail.itemId && k !in Merge(items, init) {
          assert k !in ItemIds(init);
          QuantityOfNone(init, k);
        }
      }
      forall k | k in items && k !in ItemIds(lines) ensures Merge(items, lines)[k] == items[k] {
        QuantityOfNone(lines, k);
        QuantityOfNone(init, k);
      }
    }
  }

  /** Lines that do not name an item give none of it. */
  lemma {:induction false} QuantityOfNone(lines: seq<Line>, itemId: int)
    requires itemId !in ItemIds(lines)
    ensures QuantityOf(lines, itemId) == 0
    decreases |lines|
  {
    if lines != [] {
      assert lines[0].itemId in ItemIds(lines);
      assert ItemIds(lines[1..]) <= ItemIds(lines) by {
        forall k | k in ItemIds(lines[1..]) ensures k in ItemIds(lines) {
          var i :| 0 <= i < |lines[1..]| && lines[1..][i].itemId == k;
          assert lines[i + 1].itemId == k;
        }
      }
      QuantityOfNone(lines[1..], itemId);
    }
  }

  /** The row `accept` finds: the first recipient row of that reward for that user not yet accepted. */
  function FindPending(recipients: seq<RewardRecipient>, rewardId: nat, userId: int): (r: Option<nat>)
    ensures r.Some? ==> r.value < |recipients| && IsPending(recipients[r.value], rewardId, userId)
    ensures r.Some? ==> forall j :: 0 <= j < r.value ==> !IsPending(recipients[j], rewardId, userId)
    ensures r.None? <==> forall j :: 0 <= j < |recipients| ==> !IsPending(recipients[j], rewardId, userId)
  {
    if recipients == [] then None
    else if IsPending(recipients[0], rewardId, userId) then Some(0)
    else
      var rest := FindPending(recipients[1..], rewardId, userId);
      assert forall j :: 1 <= j < |recipients| ==> recipients[j] == recipients[1..][j - 1];
      if rest.Some? then Some(rest.value + 1) else None
  }

  predicate IsPending(row: RewardRecipient, rewardId: nat, userId: int) {
    row.rewardId == rewardId && row.recipientId == userId && !row.accepted
  }

  /** Each user is listed at most once per reward. */
  predicate OneRowPerRecipient(recipients: seq<RewardRecipient>) {
    forall i, j :: 0 <= i < j < |recipients| ==>
      recipients[i].rewardId != recipients[j].rewardId || recipients[i].recipientId != recipients[j].recipientId
  }

  function MarkAccepted(recipients: seq<RewardRecipient>, i: nat): seq<RewardRecipient>
    requires i < |recipients|
  {
    recipients[i := recipients[i].(accepted := true)]
  }

  /**
   * Once only: when a user has one row per reward, accepting flips that row
   * and no pending row for the pair is left, so a second `accept` finds
   * nothing and merges nothing.
   */
  lemma AcceptedOnce(recipients: seq<RewardRecipient>, rewardId: nat, userId: int)
    requires OneRowPerRecipient(recipients)
    requires FindPending(recipients, rewardId, userId).Some?
    ensures OneRowPerRecipient(MarkAccepted(recipients, FindPending(recipients, rewardId, userId).value))
    ensures FindPending(MarkAccepted(recipients, FindPending(recipients, rewardId, userId).value), rewardId, userId).None?
  {
    var i := FindPending(recipients, rewardId, userId).value;
    var after := MarkAccepted(recipients, i);
    forall j | 0 <= j < |after| ensures !IsPending(after[j], rewardId, userId) {
      if j != i {
        assert after[j] == recipients[j];
        assert recipients[i].rewardId == rewardId && recipients[i].recipientId == userId;
        if i < j {
          assert recipients[i].rewardId != recipients[j].rewardId || recipients[i].recipientId != recipients[j].recipientId;
        } else {
          assert recipients[j].rewardId != recipients[i].rewardId || recipients[j].recipientId != recipients[i].recipientId;
        }
      }
    }
  }

  /** How many rows of the reward for the user are still pending. */
  function PendingCount(recipients: seq<RewardRecipient>, rewardId: nat, userId: int): nat {
    if recipients == [] then 0
    else (if IsPending(recipients[0], rewardId, userId) then 1 else 0) + PendingCount(recipients[1..], rewardId, userId)
  }

  /**
   * Without the one-row assumption: every merge consumes exactly one pending
   * row of the pair, so a user merges a reward once per pending row they
   * have for it, and once their count is zero `accept` finds nothing.
   */
  lemma {:induction false} AcceptConsumesOneRow(recipients: seq<RewardRecipient>, rewardId: nat, userId: int, i: nat)
    requires i < |recipients| && IsPending(recipients[i], rewardId, userId)
    ensures PendingCount(MarkAccepted(recipients, i), rewardId, userId) == PendingCount(recipients, rewardId, userId) - 1
    decreases i
  {
    var after := MarkAccepted(recipients, i);
    if i > 0 {
      assert after[1..] == MarkAccepted(recipients[1..], i - 1);
      AcceptConsumesOneRow(recipients[1..], rewardId, userId, i - 1);
    } else {
      assert after[1..] == recipients[1..];
    }
  }

  /** No pending row is left exactly when the count is zero. */
  lemma {:induction false} NoPendingIffZero(recipients: seq<RewardRecipient>, rewardId: nat, userId: int)
    ensures FindPending(recipients, rewardId, userId).None? <==> PendingCount(recipients, rewardId, userId) == 0
  {
    if recipients != [] {
      NoPendingIffZero(recipients[1..], rewardId, userId);
      assert forall j :: 1 <= j < |recipients| ==> recipients[j] == recipients[1..][j - 1];
    }
  }

  /** Two pending rows for the same pair: the first accept leaves the second pending. */
  lemma DuplicateRowAcceptsTwice()
    ensures var rs := [RewardRecipient(1, 7, 42, false), RewardRecipient(2, 7, 42, false)];
      FindPending(rs, 7, 42) == Some(0) && FindPending(MarkAccepted(rs, 0), 7, 42) == Some(1)
  {
  }

  class RewardStore {
    /** `reward_recipient` rows. */
    var recipients: seq<RewardRecipient>
    /** `reward` rows with their `reward_detail` lines, by id. */
    var rewards: map<nat, RewardRow>
    /** `user_item`: each user's `item_id => quantity`. */
    var inventory: map<int, Items>

    ghost predicate Valid()
      reads this
    {
      OneRowPerRecipient(recipients)
    }

    constructor (recipients: seq<RewardRecipient>, rewards: map<nat, RewardRow>, inventory: map<int, Items>)
      ensures this.recipients == recipients && this.rewards == rewards && this.inventory == inventory
    {
      this.recipients := recipients;
      this.rewards := rewards;
      this.inventory := inventory;
    }

    function ItemsOf(userId: int): Items
      reads this
    {
      if userId in inventory then inventory[userId] else map[]
    }

    function RewardLines(rewardId: nat): seq<Line>
      reads this
    {
      if rewardId in rewards then rewards[rewardId].lines else []
    }

    /**
     * `accept($reward_id)` by the current user: when a pending recipient row
     * exists, each reward line is merged into the user's items and the row
     * is marked accepted; otherwise nothing changes.
     */
    method Accept(rewardId: nat, userId: int) returns (merged: bool)
      modifies this
      ensures rewards == old(rewards)
      ensures merged <==> FindPending(old(recipients), rewardId, userId).Some?
      ensures !merged ==> recipients == old(recipients) && inventory == old(inventory)
      ensures merged ==>
        recipients == MarkAccepted(old(recipients), FindPending(old(recipients), rewardId, userId).value) &&
        inventory == old(inventory)[userId := Merge(old(ItemsOf(userId)), old(RewardLines(rewardId)))]
      ensures old(Valid()) ==> Valid()
    {
      var reward := FindPending(recipients, rewardId, userId);
      merged := false;
      if reward.Some? {
        var userItems := ItemsOf(userId);
        var lines := RewardLines(rewardId);
        for i := 0 to |lines|
          invariant userItems == Merge(old(ItemsOf(userId)), lines[..i])
        {
          assert lines[..i + 1][..i] == lines[..i];
          var itemId := lines[i].itemId;
          var quantity := lines[i].quantity;
          if itemId !in userItems {
            userItems := userItems[itemId := quantity];
          } else {
            userItems := userItems[itemId := userItems[itemId] + quantity];
          }
        }
        assert lines[..|lines|] == lines;
        inventory := inventory[userId := userItems];
        if old(Valid()) {
          AcceptedOnce(recipients, rewardId, userId);
        }
        recipients := MarkAccepted(recipients, reward.value);
        merged := true;
      }
    }
  }

  // ----- package -----

  /** PHP's `empty()` on a request string: true for "" and "0". */
  predicate PhpEmpty(s: string) {
    s == "" || s == "0"
  }

  /** `\s` of PCRE: space, tab, line feed, vertical tab, form feed, carriage return. */
  predicate IsSpace(c: char) {
    c == ' ' || c == '\t' || c == '\n' || c == '\r' || c as int == 11 || c as int == 12
  }

  predicate NoNewline(s: string) {
    forall i :: 0 <= i < |s| ==> s[i] != '\n'
  }

  /** The index of the first line feed, if any. */
  function FirstNewline(s: string): (r: Option<nat>)
    ensures r.Some? ==> r.value < |s| && s[r.value] == '\n' && NoNewline(s[..r.value])
    ensures r.None? ==> NoNewline(s)
  {
    if s == [] then None
    else if s[0] == '\n' then Some(0)
    else
      var rest := FirstNewline(s[1..]);
      assert forall i :: 1 <= i < |s| ==> s[i] == s[1..][i - 1];
      if rest.Some? then
        assert s[..rest.value + 1] == [s[0]] + s[1..][..rest.value];
        Some(rest.value + 1)
      else None
  }

  /** Where the run of whitespace that ends at `i` starts. */
  function RunStart(s: string, i: nat): (r: nat)
    requires i <= |s|
    ensures r <= i && (r == 0 || !IsSpace(s[r - 1]))
    ensures forall j :: r <= j < i ==> IsSpace(s[j])
  {
    if i > 0 && IsSpace(s[i - 1]) then RunStart(s, i - 1) else i
  }

  /** Where the run of whitespace that starts at `i` ends. */
  function RunEnd(s: string, i: nat): (r: nat)
    requires i <= |s|
    ensures i <= r <= |s| && (r == |s| || !IsSpace(s[r]))
    ensures forall j :: i <= j < r ==> IsSpace(s[j])
    decreases |s| - i
  {
    if i < |s| && IsSpace(s[i]) then RunEnd(s, i + 1) else i
  }

  /**
   * `preg_split("/\s*\n\s*\/", s)`: the leftmost match is the whole run of
   * whitespace around the first line feed; the piece before it is kept and
   * the rest is split again. A string with no line feed is one piece.
   */
  function SplitRecipients(s: string): (parts: seq<string>)
    ensures |parts| >= 1
    ensures parts[0] <= s
    ensures forall i :: 0 <= i < |parts| ==> NoNewline(parts[i])
    ensures forall i :: 0 <= i < |parts| - 1 ==> parts[i] == "" || !IsSpace(parts[i][|parts[i]| - 1])
    ensures forall i :: 0 < i < |parts| ==> parts[i] == "" || !IsSpace(parts[i][0])
    decreases |s|
  {
    match FirstNewline(s)
    case None => [s]
    case Some(n) =>
      var start := RunStart(s, n);
      var end := RunEnd(s, n);
      assert NoNewline(s[..start]) by {
        forall i | 0 <= i < start ensures s[..start][i] != '\n' { assert s[..start][i] == s[..n][i]; }
      }
      var rest := SplitRecipients(s[end..]);
      assert rest[0] == "" || !IsSpace(rest[0][0]) by {
        if rest[0] != "" { assert rest[0][0] == s[end..][0] == s[end]; }
      }
      [s[..start]] + rest
  }

  /** Whitespace holding at least one line feed: what the pattern matches. */
  predicate Separator(sep: string) {
    (forall i :: 0 <= i < |sep| ==> IsSpace(sep[i])) && exists i :: 0 <= i < |sep| && sep[i] == '\n'
  }

  /** A name as typed on one line: not empty, no line feed, no whitespace at either end. */
  predicate Trimmed(name: string) {
    name != "" && NoNewline(name) && !IsSpace(name[0]) && !IsSpace(name[|name| - 1])
  }

  /** The names with `seps[i]` between `names[i]` and `names[i + 1]`. */
  function JoinWith(names: seq<string>, seps: seq<string>): string
    requires |names| >= 1 && |seps| == |names| - 1
  {
    if |names| == 1 then names[0] else names[0] + seps[0] + JoinWith(names[1..], seps[1..])
  }

  /** A run that starts after a non-space and holds only whitespace up to `i` starts where it should. */
  lemma RunStartAt(s: string, i: nat, a: nat)
    requires a <= i <= |s| && (a == 0 || !IsSpace(s[a - 1]))
    requires forall j :: a <= j < i ==> IsSpace(s[j])
    ensures RunStart(s, i) == a
  {
  }

  lemma RunEndAt(s: string, i: nat, b: nat)
    requires i <= b <= |s| && (b == |s| || !IsSpace(s[b]))
    requires forall j :: i <= j < b ==> IsSpace(s[j])
    ensures RunEnd(s, i) == b
  {
  }

  /** A line feed with none before it is the first one. */
  lemma {:induction false} FirstNewlineIs(s: string, n: nat)
    requires n < |s| && s[n] == '\n' && NoNewline(s[..n])
    ensures FirstNewline(s) == Some(n)
    decreases n
  {
    if n > 0 {
      assert s[0] == s[..n][0];
      assert s[1..][..n - 1] == s[..n][1..];
      FirstNewlineIs(s[1..], n - 1);
    }
  }

  /** One step of the split at the first line feed, whose blank run spans `a` to `b`. */
  lemma SplitStep(s: string, n: nat, a: nat, b: nat)
    requires FirstNewline(s) == Some(n) && RunStart(s, n) == a && RunEnd(s, n) == b
    ensures a <= b <= |s|
    ensures SplitRecipients(s) == [s[..a]] + SplitRecipients(s[b..])
  {
  }

  /** The blank run around a line feed of the separator is exactly the separator. */
  lemma SeparatorRun(first: string, sep: string, rest: string, n: nat)
    requires first == "" || !IsSpace(first[|first| - 1])
    requires Separator(sep)
    requires rest == "" || !IsSpace(rest[0])
    requires |first| <= n < |first| + |sep|
    ensures RunStart(first + sep + rest, n) == |first|
    ensures RunEnd(first + sep + rest, n) == |first| + |sep|
  {
    var s := first + sep + rest;
    var m := |first| + |sep|;
    assert forall j :: |first| <= j < m ==> s[j] == sep[j - |first|];
    assert |first| > 0 ==> s[|first| - 1] == first[|first| - 1];
    assert m < |s| ==> s[m] == rest[0];
    RunStartAt(s, n, |first|);
    RunEndAt(s, n, m);
  }

  /** Where the first line feed of `first + sep + rest` is, when `first` has none and `sep` has one. */
  lemma FirstNewlineInSeparator(first: string, sep: string, rest: string) returns (n: nat)
    requires NoNewline(first) && Separator(sep)
    ensures |first| <= n < |first| + |sep|
    ensures FirstNewline(first + sep + rest) == Some(n)
  {
    var s := first + sep + rest;
    var k := FirstNewline(sep).value;
    n := |first| + k;
    assert s[n] == sep[k];
    assert NoNewline(s[..n]) by {
      forall j | 0 <= j < n ensures s[..n][j] != '\n' {
        if j < |first| { assert s[..n][j] == first[j]; } else { assert s[..n][j] == sep[..k][j - |first|]; }
      }
    }
    FirstNewlineIs(s, n);
  }

  /** One line, a separator, then text that starts with a non-space: the line is the first piece. */
  lemma SplitAfterFirstName(first: string, sep: string, rest: string)
    requires NoNewline(first) && (first == "" || !IsSpace(first[|first| - 1]))
    requires Separator(sep)
    requires rest == "" || !IsSpace(rest[0])
    ensures SplitRecipients(first + sep + rest) == [first] + SplitRecipients(rest)
  {
    var s := first + sep + rest;
    var n := FirstNewlineInSeparator(first, sep, rest);
    var m := |first| + |sep|;
    SeparatorRun(first, sep, rest, n);
    SplitStep(s, n, |first|, m);
    assert s[..|first|] == first;
    assert s[m..] == rest;
  }

  /**
   * Names typed one per line come back as they were typed: joining trimmed
   * names with any whitespace that holds a line feed and splitting again
   * gives the names, the blanks around each line feed removed.
   */
  lemma {:induction false} SplitJoinedNames(names: seq<string>, seps: seq<string>)
    requires |names| >= 1 && |seps| == |names| - 1
    requires forall i :: 0 <= i < |names| ==> Trimmed(names[i])
    requires forall i :: 0 <= i < |seps| ==> Separator(seps[i])
    ensures SplitRecipients(JoinWith(names, seps)) == names
    decreases |names|
  {
    if |names| == 1 {
      assert FirstNewline(names[0]).None?;
    } else {
      var tail, tailSeps := names[1..], seps[1..];
      assert forall i :: 0 <= i < |tail| ==> tail[i] == names[i + 1];
      assert forall i :: 0 <= i < |tailSeps| ==> tailSeps[i] == seps[i + 1];
      SplitJoinedNames(tail, tailSeps);
      SplitConsName(names, seps);
    }
  }

  /** The induction step: a trimmed name and a separator in front of names that split back. */
  lemma SplitConsName(names: seq<string>, seps: seq<string>)
    requires |names| >= 2 && |seps| == |names| - 1
    requires Trimmed(names[0]) && Trimmed(names[1]) && Separator(seps[0])
    requires SplitRecipients(JoinWith(names[1..], seps[1..])) == names[1..]
    ensures SplitRecipients(JoinWith(names, seps)) == names
  {
    var rest := JoinWith(names[1..], seps[1..]);
    JoinWithHead(names[1..], seps[1..]);
    SplitAfterFirstName(names[0], seps[0], rest);
    assert [names[0]] + names[1..] == names;
  }

  /** Joined names start with the first name's first character. */
  lemma JoinWithHead(names: seq<string>, seps: seq<string>)
    requires |names| >= 1 && |seps| == |names| - 1 && names[0] != ""
    ensures |JoinWith(names, seps)| > 0 && JoinWith(names, seps)[0] == names[0][0]
  {
  }

  /** A field with a blank before and after its line feed. */
  lemma SplitTrimsBlanks()
    ensures SplitRecipients("alice \n bob") == ["alice", "bob"]
  {
    assert " \n "[1] == '\n';
    assert Trimmed("alice") && Trimmed("bob");
    SplitJoinedNames(["alice", "bob"], [" \n "]);
    assert JoinWith(["alice", "bob"], [" \n "]) == "alice \n bob";
  }

  /** A line of `RewardDetail` as posted: an item and the quantity asked for (an empty field is 0). */
  datatype DetailInput = DetailInput(itemId: int, quantity: int)

  /** The lines `package` keeps: those with a quantity of at least 1, in posted order. */
  function Kept(details: seq<DetailInput>): (kept: seq<DetailInput>)
    ensures |kept| <= |details|
    ensures forall i :: 0 <= i < |kept| ==> kept[i].quantity >= 1 && kept[i] in details
    ensures forall i :: 0 <= i < |details| && details[i].quantity >= 1 ==> details[i] in kept
  {
    if details == [] then []
    else
      var init := details[..|details| - 1];
      var last := details[|details| - 1];
      assert forall i :: 0 <= i < |init| ==> init[i] == details[i];
      Kept(init) + (if last.quantity >= 1 then [last] else [])
  }

  /** Each line with a quantity of at least 1 is kept as many times as it was posted; the others never are. */
  lemma {:induction false} KeptCounts(details: seq<DetailInput>, x: DetailInput)
    ensures multiset(Kept(details))[x] == (if x.quantity >= 1 then multiset(details)[x] else 0)
  {
    if details != [] {
      var init := details[..|details| - 1];
      var last := details[|details| - 1];
      KeptCounts(init, x);
      assert details == init + [last];
      KeptSnoc(init, last);
    }
  }

  /** Kept lines stay in posted order: filtering a prefix of the lines yields a prefix of the kept lines. */
  lemma {:induction false} KeptPrefix(details: seq<DetailInput>, p: nat)
    requires p <= |details|
    ensures Kept(details[..p]) <= Kept(details)
    decreases |details| - p
  {
    if p < |details| {
      KeptPrefix(details, p + 1);
      assert details[..p + 1] == details[..p] + [details[p]];
      KeptSnoc(details[..p], details[p]);
    } else {
      assert details[..p] == details;
    }
  }

  /** The current price of an item; a missing item prices at 0. */
  function PriceOf(prices: map<int, int>, itemId: int): int {
    if itemId in prices then prices[itemId] else 0
  }

  /** Σ price × quantity over lines. */
  function Value(details: seq<DetailInput>, prices: map<int, int>): int {
    if details == [] then 0
    else
      var last := details[|details| - 1];
      Value(details[..|details| - 1], prices) + PriceOf(prices, last.itemId) * last.quantity
  }

  lemma KeptSnoc(details: seq<DetailInput>, x: DetailInput)
    ensures Kept(details + [x]) == Kept(details) + (if x.quantity >= 1 then [x] else [])
  {
    assert (details + [x])[..|details|] == details;
  }

  lemma ValueSnoc(details: seq<DetailInput>, x: DetailInput, prices: map<int, int>)
    ensures Value(details + [x], prices) == Value(details, prices) + PriceOf(prices, x.itemId) * x.quantity
  {
    assert (details + [x])[..|details|] == details;
  }

  /** With non-negative prices, lines of positive quantity are worth a non-negative amount. */
  lemma {:induction false} ValueNonNegative(details: seq<DetailInput>, prices: map<int, int>)
    requires forall k :: k in prices ==> prices[k] >= 0
    requires forall i :: 0 <= i < |details| ==> details[i].quantity >= 1
    ensures Value(details, prices) >= 0
  {
    if details != [] {
      var last := details[|details| - 1];
      ValueNonNegative(details[..|details| - 1], prices);
      var price := PriceOf(prices, last.itemId);
      assert price >= 0 && last.quantity >= 1;
      assert price * last.quantity >= 0;
    }
  }

  /** The estimated value `package` shows is never negative when no price is. */
  lemma KeptValueNonNegative(details: seq<DetailInput>, prices: map<int, int>)
    requires forall k :: k in prices ==> prices[k] >= 0
    ensures Value(Kept(details), prices) >= 0
  {
    ValueNonNegative(Kept(details), prices);
  }

  /** The loop of `package`: drop lines with quantity below 1 while totalling the value of the rest. */
  method FilterDetails(details: seq<DetailInput>, prices: map<int, int>) returns (rewardDetails: seq<DetailInput>, totalValue: int)
    ensures rewardDetails == Kept(details)
    ensures totalValue == Value(Kept(details), prices)
  {
    rewardDetails := [];
    totalValue := 0;
    for i := 0 to |details|
      invariant rewardDetails == Kept(details[..i])
      invariant totalValue == Value(rewardDetails, prices)
    {
      assert details[..i + 1] == details[..i] + [details[i]];
      KeptSnoc(details[..i], details[i]);
      var detail := details[i];
      if detail.quantity < 1 {
        continue;
      }
      // each kept line adds its price times its quantity to the shown total
      ValueSnoc(rewardDetails, detail, prices);
      totalValue := totalValue + PriceOf(prices, detail.itemId) * detail.quantity;
      rewardDetails := rewardDetails + [detail];
    }
    assert details[..|details|] == details;
  }

  datatype PackageError = NoRecipients | NoDetails

  /** What `package` writes to the session and shows for confirmation. */
  datatype Packaged = Packaged(recipients: seq<int>, senderId: int, message: string, details: seq<DetailInput>, totalValue: int)

  /**
   * `package`: split the recipients field (an empty field is an error),
   * resolve the names to account ids, keep the lines with a quantity of at
   * least 1 (none kept is an error) and total their value.
   */
  method Package(recipientsField: string, messageField: string, details: seq<DetailInput>, prices: map<int, int>,
                 senderId: int, resolve: seq<string> -> seq<int>)
    returns (r: Result<Packaged, PackageError>)
    ensures PhpEmpty(recipientsField) <==> r == Err(NoRecipients)
    ensures !PhpEmpty(recipientsField) && Kept(details) == [] ==> r == Err(NoDetails)
    ensures r.Ok? <==> !PhpEmpty(recipientsField) && Kept(details) != []
    ensures r.Ok? ==>
      && r.value.recipients == resolve(SplitRecipients(recipientsField))
      && r.value.details == Kept(details)
      && r.value.totalValue == Value(Kept(details), prices)
      && r.value.senderId == senderId
      && r.value.message == (if PhpEmpty(messageField) then "" else messageField)
  {
    if PhpEmpty(recipientsField) {
      return Err(NoRecipients);
    }
    var recipientData := SplitRecipients(recipientsField);
    var recipients := resolve(recipientData);
    var message := if PhpEmpty(messageField) then "" else messageField;
    var rewardDetails, totalValue := FilterDetails(details, prices);
    if rewardDetails == [] {
      return Err(NoDetails);
    }
    r := Ok(Packaged(recipients, senderId, message, rewardDetails, totalValue));
  }

  // ----- activity -----

  /** A reward on the activity page with its `RewardRecipient` rows. */
  datatype RewardEntry = RewardEntry(reward: RewardRow, recipients: seq<RewardRecipient>)

  /** A reward as the page shows it: details as `item_id => quantity`, recipients as a list of ids. */
  datatype OrganizedReward = OrganizedReward(reward: RewardRow, details: map<int, int>, recipientIds: seq<int>)

  function RecipientIds(rows: seq<RewardRecipient>): (ids: seq<int>)
    ensures |ids| == |rows| && forall i :: 0 <= i < |rows| ==> ids[i] == rows[i].recipientId
  {
    seq(|rows|, i requires 0 <= i < |rows| => rows[i].recipientId)
  }

  function Organize(e: RewardEntry): OrganizedReward {
    OrganizedReward(e.reward, Squash(e.reward.lines), RecipientIds(e.recipients))
  }

  /** The loop of `activity` that reorganises each reward of the page in place. */
  method OrganizeRewards(rewards: seq<RewardEntry>) returns (organized: seq<OrganizedReward>)
    ensures |organized| == |rewards|
    ensures forall i :: 0 <= i < |rewards| ==> organized[i] == Organize(rewards[i])
  {
    organized := [];
    for i := 0 to |rewards|
      invariant |organized| == i
      invariant forall j :: 0 <= j < i ==> organized[j] == Organize(rewards[j])
    {
      var reward := rewards[i];
      var details := Squash(reward.reward.lines);
      var recipientIds := RecipientIds(reward.recipients);
      organized := organized + [OrganizedReward(reward.reward, details, recipientIds)];
    }
  }

  /**
   * An organised reward keeps its row; its detail map has one key per
   * distinct item, holding the quantity of the last line for it; its
   * recipient list names each recipient row's user in order.
   */
  lemma OrganizeSpec(e: RewardEntry)
    ensures Organize(e).reward == e.reward
    ensures Organize(e).details.Keys == ItemIds(e.reward.lines)
    ensures forall i :: IsLastFor(e.reward.lines, i) ==>
      Organize(e).details[e.reward.lines[i].itemId] == e.reward.lines[i].quantity
    ensures |Organize(e).recipientIds| == |e.recipients|
    ensures forall i :: 0 <= i < |e.recipients| ==> Organize(e).recipientIds[i] == e.recipients[i].recipientId
  {
    SquashKeys(e.reward.lines);
    forall i | IsLastFor(e.reward.lines, i)
      ensures Organize(e).details[e.reward.lines[i].itemId] == e.reward.lines[i].quantity
    {
      SquashLastWins(e.reward.lines, i);
    }
  }
}
