/** Reading the on-chain ProtocolFeeAccount. */
module FeeAccount {
  import opened Text
  import opened Borsh

  const DISCRIMINATOR: Bytes := [5, 171, 24, 9, 150, 135, 135, 201]
  const VERSION: nat := 8
  const GOVERNANCE: nat := 9
  const COUNT: nat := 41
  const BALANCES: nat := 45

  // Where balance i starts: each takes 40 bytes.
  function Offset(i: nat): nat {
    45 + i * 40
  }

  // `bump` is undefined when the data ends right after the balances.
  datatype Account = Account(version: byte, governance: Pubkey, balances: seq<AssetBudget>, bump: Option<byte>, collectedSol: int)
  datatype Failure = TooShort | WrongDiscriminator | ReadOutOfRange
  datatype Outcome = Decoded(account: Account) | Failed(failure: Failure)

  // ---- the layout --------------------------------------------------------------

  function BudgetBytes(b: AssetBudget): Bytes
    requires 0 <= b.amount
  {
    b.mint + LE(b.amount, 8)
  }

  predicate Fits(balances: seq<AssetBudget>) {
    |balances| <= 0xffff_ffff && forall b | b in balances :: 0 <= b.amount <= 0xffff_ffff_ffff_ffff
  }

  function BalancesBytes(balances: seq<AssetBudget>): (r: Bytes)
    requires forall b | b in balances :: 0 <= b.amount
    ensures 45 + |r| == Offset(|balances|)
  {
    if balances == [] then [] else BalancesBytes(balances[..|balances| - 1]) + BudgetBytes(balances[|balances| - 1])
  }

  function Layout(version: byte, governance: Pubkey, balances: seq<AssetBudget>, bump: byte): Bytes
    requires Fits(balances)
  {
    DISCRIMINATOR + [version] + governance + LE(|balances|, 4) + BalancesBytes(balances) + [bump]
  }

  // The first balance of the SOL pseudo mint, which is all zeros.
  function SolBalance(balances: seq<AssetBudget>): int {
    if balances == [] then 0
    else if balances[0].mint == ZERO_KEY then balances[0].amount
    else SolBalance(balances[1..])
  }

  // ---- what a byte string decodes to -------------------------------------------

  function CountOf(data: Bytes): nat
    requires |data| > BALANCES
  {
    FromLE(data[COUNT..BALANCES])
  }

  function BudgetAt(data: Bytes, i: nat): AssetBudget
    requires Offset(i + 1) <= |data|
  {
    var off := Offset(i);
    AssetBudget(data[off..off + 32], FromLE(data[off + 32..off + 40]))
  }

  function BudgetsOf(data: Bytes, n: nat): (r: seq<AssetBudget>)
    requires Offset(n) <= |data|
    ensures |r| == n
  {
    if n == 0 then [] else BudgetsOf(data, n - 1) + [BudgetAt(data, n - 1)]
  }

  // What the data stand for: every field read at its place.
  function Decode(data: Bytes): Outcome {
    if |data| <= BALANCES then Failed(TooShort)
    else if data[..8] != DISCRIMINATOR then Failed(WrongDiscriminator)
    else
      var end := Offset(CountOf(data));
      if end > |data| then Failed(ReadOutOfRange)
      else
        var balances := BudgetsOf(data, CountOf(data));
        Decoded(Account(data[VERSION], data[GOVERNANCE..COUNT], balances,
                        if end < |data| then Some(data[end]) else None, SolBalance(balances)))
  }

  /** Reading balance by balance at computed offsets; the first one past the end throws. */
  method DecodeProtocolFeeAccount(data: Bytes) returns (r: Outcome)
    ensures r == Decode(data)
    ensures r == Failed(TooShort) <==> |data| <= BALANCES
    ensures r == Failed(WrongDiscriminator) <==> |data| > BALANCES && data[..8] != DISCRIMINATOR
    ensures r == Failed(ReadOutOfRange) <==>
              |data| > BALANCES && data[..8] == DISCRIMINATOR && Offset(CountOf(data)) > |data|
  {
    if |data| < BALANCES + 1 {
      return Failed(TooShort);
    }
    if data[..8] != DISCRIMINATOR {
      return Failed(WrongDiscriminator);
    }
    var version := data[VERSION];
    var governance: Pubkey := data[GOVERNANCE..GOVERNANCE + 32];
    var count := FromLE(data[COUNT..COUNT + 4]);
    var balances := [];
    var i := 0;
    while i < count
      invariant i <= count && Offset(i) <= |data|
      invariant balances == BudgetsOf(data, i)
    {
      var off := Offset(i);
      if |data| < off + 40 {
        return Failed(ReadOutOfRange);
      }
      var mint: Pubkey := data[off..off + 32];
      balances := balances + [AssetBudget(mint, FromLE(data[off + 32..off + 40]))];
      i := i + 1;
    }
    var end := Offset(count);
    var bump := if end < |data| then Some(data[end]) else None;
    var sol := FindSol(balances);
    r := Decoded(Account(version, governance, balances, bump, if sol.Some? then sol.value.amount else 0));
  }

  method FindSol(balances: seq<AssetBudget>) returns (r: Option<AssetBudget>)
    ensures (if r.Some? then r.value.amount else 0) == SolBalance(balances)
    ensures r.Some? <==> exists b :: b in balances && b.mint == ZERO_KEY
  {
    var i := 0;
    while i < |balances|
      invariant i <= |balances|
      invariant forall k | 0 <= k < i :: balances[k].mint != ZERO_KEY
      invariant SolBalance(balances) == SolBalance(balances[i..])
    {
      if balances[i].mint == ZERO_KEY {
        return Some(balances[i]);
      }
      i := i + 1;
    }
    r := None;
  }

  // ---- the decoder inverts the layout ------------------------------------------

  lemma BudgetAtOf(before: Bytes, b: AssetBudget, rest: Bytes, n: nat)
    requires |before| == Offset(n) && 0 <= b.amount <= 0xffff_ffff_ffff_ffff
    ensures BudgetAt(before + BudgetBytes(b) + rest, n) == b
  {
    var data := before + BudgetBytes(b) + rest;
    var off := |before|;
    Widths();
    FromLEOfLE(b.amount, 8);
    hide LE, FromLE, Pow256;
    assert data[off..off + 32] == b.mint;
    assert data[off + 32..off + 40] == LE(b.amount, 8);
  }

  lemma {:induction false} BudgetsOfLayout(head: Bytes, balances: seq<AssetBudget>, rest: Bytes)
    requires |head| == BALANCES && Fits(balances)
    ensures BudgetsOf(head + BalancesBytes(balances) + rest, |balances|) == balances
  {
    if balances != [] {
      var n := |balances| - 1;
      var init, last := BalancesBytes(balances[..n]), BudgetBytes(balances[n]);
      assert balances == balances[..n] + [balances[n]];
      assert BalancesBytes(balances) == init + last;
      hide BudgetBytes, BudgetAt, BalancesBytes, Offset;
      Regroup(head, init, last, rest);
      BudgetsOfLayout(head, balances[..n], last + rest);
      assert |head + init| == Offset(n) by { Placed(head, balances[..n]); }
      BudgetAtOf(head + init, balances[n], rest, n);
      LastBudget(head + init + last + rest, n);
    }
  }

  lemma Regroup(a: Bytes, b: Bytes, c: Bytes, d: Bytes)
    ensures a + (b + c) + d == a + b + c + d == a + b + (c + d)
  {
  }

  lemma Placed(head: Bytes, balances: seq<AssetBudget>)
    requires |head| == BALANCES && Fits(balances)
    ensures |head + BalancesBytes(balances)| == Offset(|balances|)
  {
  }

  lemma LastBudget(data: Bytes, n: nat)
    requires Offset(n + 1) <= |data|
    ensures Offset(n) <= |data| && BudgetsOf(data, n + 1) == BudgetsOf(data, n) + [BudgetAt(data, n)]
  {
  }

  /** Any account, with any number of balances and whatever follows it, decodes to itself. */
  lemma DecodeInvertsLayout(version: byte, governance: Pubkey, balances: seq<AssetBudget>, bump: byte, padding: Bytes)
    requires Fits(balances)
    ensures Decode(Layout(version, governance, balances, bump) + padding)
         == Decoded(Account(version, governance, balances, Some(bump), SolBalance(balances)))
  {
    hide BalancesBytes, BudgetsOf, LE, FromLE, Pow256, SolBalance;
    var count, body := LE(|balances|, 4), BalancesBytes(balances);
    var head := DISCRIMINATOR + [version] + governance + count;
    var data := Layout(version, governance, balances, bump) + padding;
    assert data == head + body + ([bump] + padding);
    hide Layout;
    HeadFields(version, governance, count, head);
    DataFields(head, body, bump, padding, data);
    assert CountOf(data) == |balances| by {
      Widths();
      FromLEOfLE(|balances|, 4);
    }
    BudgetsOfLayout(head, balances, [bump] + padding);
  }

  lemma DataFields(head: Bytes, body: Bytes, bump: byte, padding: Bytes, data: Bytes)
    requires |head| == 45 && data == head + body + ([bump] + padding)
    ensures |data| > 45 + |body| && data[45 + |body|] == bump
    ensures data[..8] == head[..8] && data[8] == head[8] && data[9..41] == head[9..41] && data[41..45] == head[41..45]
  {
  }

  lemma HeadFields(version: byte, governance: Pubkey, count: Bytes, head: Bytes)
    requires |count| == 4 && head == DISCRIMINATOR + [version] + governance + count
    ensures |head| == 45 && head[..8] == DISCRIMINATOR && head[8] == version && head[9..41] == governance && head[41..45] == count
  {
  }

  lemma {:induction false} BalancesAreLaidOut(data: Bytes, n: nat)
    requires Offset(n) <= |data|
    ensures var b := BudgetsOf(data, n);
            && (forall x | x in b :: 0 <= x.amount <= 0xffff_ffff_ffff_ffff)
            && data[BALANCES..Offset(n)] == BalancesBytes(b)
  {
    if n > 0 {
      BalancesAreLaidOut(data, n - 1);
      BudgetIsLaidOut(data, n - 1);
      var off := Offset(n - 1);
      assert off + 40 == Offset(n);
      var b := BudgetsOf(data, n);
      assert b[..n - 1] == BudgetsOf(data, n - 1) && b[n - 1] == BudgetAt(data, n - 1);
      hide BudgetAt, BudgetBytes, BudgetsOf, Offset;
      assert BalancesBytes(b) == data[45..off] + data[off..off + 40];
      assert data[45..off + 40] == data[45..off] + data[off..off + 40];
      assert forall x | x in b :: x in b[..n - 1] || x == b[n - 1];
    }
  }

  lemma BudgetIsLaidOut(data: Bytes, i: nat)
    requires Offset(i + 1) <= |data|
    ensures var off, b := Offset(i), BudgetAt(data, i);
            0 <= b.amount <= 0xffff_ffff_ffff_ffff && BudgetBytes(b) == data[off..off + 40]
  {
    var off := Offset(i);
    Widths();
    LEOfFromLE(data[off + 32..off + 40]);
    hide LE, FromLE, Pow256;
    assert data[off..off + 40] == data[off..off + 32] + data[off + 32..off + 40];
  }

  lemma DecodedIsLayout(data: Bytes)
    requires |data| > BALANCES && data[..8] == DISCRIMINATOR && Offset(CountOf(data)) < |data|
    ensures var balances := BudgetsOf(data, CountOf(data));
            var end := Offset(CountOf(data));
            && Fits(balances)
            && data == Layout(data[VERSION], data[GOVERNANCE..COUNT], balances, data[end]) + data[end + 1..]
  {
    var n := CountOf(data);
    var end := Offset(n);
    Widths();
    LEOfFromLE(data[COUNT..BALANCES]);
    BalancesAreLaidOut(data, n);
    Slices(data, end);
    hide BalancesBytes, BudgetsOf, LE, FromLE;
  }

  /** Data decode to a complete account exactly if they begin with its layout: nothing else is read as it. */
  lemma DecodesToIff(data: Bytes, a: Account)
    requires a.bump.Some?
    ensures Decode(data) == Decoded(a) <==>
              Fits(a.balances) && a.collectedSol == SolBalance(a.balances)
              && Layout(a.version, a.governance, a.balances, a.bump.value) <= data
  {
    hide BudgetsOf, CountOf, Layout, SolBalance;
    if Decode(data) == Decoded(a) {
      DecodedIsLayout(data);
    }
    if Fits(a.balances) && a.collectedSol == SolBalance(a.balances) && Layout(a.version, a.governance, a.balances, a.bump.value) <= data {
      var layout := Layout(a.version, a.governance, a.balances, a.bump.value);
      DecodeInvertsLayout(a.version, a.governance, a.balances, a.bump.value, data[|layout|..]);
      assert data == layout + data[|layout|..];
    }
  }

  lemma Slices(data: Bytes, end: nat)
    requires BALANCES <= end < |data|
    ensures data == data[..8] + [data[8]] + data[9..41] + data[41..45] + data[45..end] + [data[end]] + data[end + 1..]
  {
  }

  predicate HasDigit(mint: Pubkey) {
    exists k :: 0 <= k < 32 && mint[k] != 0
  }

  /** The SOL balance is the amount of the first all-zero mint, or 0 if there is none. */
  lemma {:induction false} SolIsFirst(balances: seq<AssetBudget>, i: nat)
    requires i <= |balances| && (forall j | 0 <= j < i :: HasDigit(balances[j].mint))
    requires i < |balances| ==> forall k | 0 <= k < 32 :: balances[i].mint[k] == 0
    ensures SolBalance(balances) == if i < |balances| then balances[i].amount else 0
  {
    if i > 0 {
      assert balances[0].mint != ZERO_KEY by {
        assert HasDigit(balances[0].mint);
        var k :| 0 <= k < 32 && balances[0].mint[k] != 0;
        assert ZERO_KEY[k] == 0;
      }
      assert forall j | 0 <= j < i - 1 :: balances[1..][j] == balances[j + 1];
      SolIsFirst(balances[1..], i - 1);
    } else if i < |balances| {
      assert balances[0].mint == ZERO_KEY;
    }
  }
}
