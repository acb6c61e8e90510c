/** The SDK's Borsh encoders: every payload reads back as the parameters that produced it. */
module Borsh {
  import opened Text

  type Pubkey = s: Bytes | |s| == 32 witness ZERO_KEY

  const ZERO_KEY: Bytes := [0, 0, 0, 0, 0, 0, 0, 0, 0, 0, 0, 0, 0, 0, 0, 0] + [0, 0, 0, 0, 0, 0, 0, 0, 0, 0, 0, 0, 0, 0, 0, 0]

  // ---- little-endian integers --------------------------------------------------

  function Pow256(k: nat): (p: nat)
    ensures p > 0
  {
    if k == 0 then 1 else 256 * Pow256(k - 1)
  }

  function LE(n: nat, k: nat): (b: Bytes)
    ensures |b| == k
  {
    if k == 0 then [] else [n % 256] + LE(n / 256, k - 1)
  }

  function FromLE(b: Bytes): nat {
    if b == [] then 0 else b[0] + 256 * FromLE(b[1..])
  }

  lemma {:induction false} FromLEOfLE(n: nat, k: nat)
    requires n < Pow256(k)
    ensures FromLE(LE(n, k)) == n
  {
    if k > 0 {
      FromLEOfLE(n / 256, k - 1);
      assert LE(n, k)[1..] == LE(n / 256, k - 1);
    }
  }

  lemma {:induction false} LEOfFromLE(b: Bytes)
    ensures FromLE(b) < Pow256(|b|) && LE(FromLE(b), |b|) == b
  {
    if b != [] {
      LEOfFromLE(b[1..]);
    }
  }

  lemma Widths()
    ensures Pow256(2) == 0x1_0000 && Pow256(4) == 0x1_0000_0000 && Pow256(8) == 0x1_0000_0000_0000_0000
  {
    assert Pow256(1) == 256 && Pow256(3) == 0x100_0000;
    assert Pow256(5) == 0x100_0000_0000 && Pow256(6) == 0x1_0000_0000_0000 && Pow256(7) == 0x100_0000_0000_0000;
  }

  // ---- encoders; None stands for the RangeError they throw ---------------------

  // A JavaScript number is checked for being an integer, a bigint for its range only.
  predicate IsInteger(n: real) {
    n.Floor as real == n
  }

  function EncodeU16(n: real): Option<Bytes> {
    if !IsInteger(n) || n.Floor < 0 || n.Floor > 0xffff then None else Some(LE(n.Floor, 2))
  }

  function EncodeU32(n: real): Option<Bytes> {
    if !IsInteger(n) || n.Floor < 0 || n.Floor > 0xffff_ffff then None else Some(LE(n.Floor, 4))
  }

  function EncodeU64(n: int): Option<Bytes> {
    if n < 0 || n > 0xffff_ffff_ffff_ffff then None else Some(LE(n, 8))
  }

  function EncodeI64(n: int): Option<Bytes> {
    if n < -0x8000_0000_0000_0000 || n > 0x7fff_ffff_ffff_ffff then None
    else Some(LE(if n < 0 then n + 0x1_0000_0000_0000_0000 else n, 8))
  }

  function EncodePubkey(k: Pubkey): Option<Bytes> {
    Some(k)
  }

  function EncodeAction(a: Bytes): Option<Bytes> {
    if |a| != 8 then None else Some(a)
  }

  datatype AssetBudget = AssetBudget(mint: Pubkey, amount: int)

  function Both(a: Option<Bytes>, b: Option<Bytes>): Option<Bytes> {
    if a.Some? && b.Some? then Some(a.value + b.value) else None
  }

  function EncodeAssetBudget(b: AssetBudget): Option<Bytes> {
    Both(EncodePubkey(b.mint), EncodeU64(b.amount))
  }

  function EncodeItems<T>(items: seq<T>, encode: T -> Option<Bytes>): Option<Bytes> {
    if items == [] then Some([]) else Both(encode(items[0]), EncodeItems(items[1..], encode))
  }

  function EncodeVec<T>(items: seq<T>, encode: T -> Option<Bytes>): Option<Bytes> {
    Both(EncodeU32(|items| as real), EncodeItems(items, encode))
  }

  function EncodeOption<T>(v: Option<T>, encode: T -> Option<Bytes>): Option<Bytes> {
    match v
    case None => Some([0])
    case Some(x) => Both(Some([1]), encode(x))
  }

  // undefined, null and a key: leave unchanged, clear, set.
  function EncodeSecondarySigner(v: Option<Option<Pubkey>>): Option<Bytes> {
    match v
    case None => Some([0])
    case Some(None) => Some([1, 0])
    case Some(Some(k)) => Both(Some([1, 1]), EncodePubkey(k))
  }

  // ---- reading -----------------------------------------------------------------

  datatype Read<+T> = Read(value: T, rest: Bytes)
  type Reader<!T> = Bytes -> Option<Read<T>>

  function Take(data: Bytes, k: nat): Option<Read<Bytes>> {
    if |data| < k then None else Some(Read(data[..k], data[k..]))
  }

  function ReadU16(data: Bytes): Option<Read<real>> {
    match Take(data, 2) case None => None case Some(r) => Some(Read(FromLE(r.value) as real, r.rest))
  }

  function ReadCount(data: Bytes): Option<Read<nat>> {
    match Take(data, 4) case None => None case Some(r) => Some(Read(FromLE(r.value), r.rest))
  }

  function ReadU32(data: Bytes): Option<Read<real>> {
    match ReadCount(data) case None => None case Some(n) => Some(Read(n.value as real, n.rest))
  }

  function ReadU64(data: Bytes): Option<Read<int>> {
    match Take(data, 8) case None => None case Some(r) => Some(Read(FromLE(r.value), r.rest))
  }

  function ReadI64(data: Bytes): Option<Read<int>> {
    match Take(data, 8)
    case None => None
    case Some(r) =>
      var n := FromLE(r.value);
      Some(Read(if n >= 0x8000_0000_0000_0000 then n - 0x1_0000_0000_0000_0000 else n, r.rest))
  }

  function ReadPubkey(data: Bytes): Option<Read<Pubkey>> {
    if |data| < 32 then None
    else
      var k: Pubkey := data[..32];
      Some(Read(k, data[32..]))
  }

  function ReadAction(data: Bytes): Option<Read<Bytes>> {
    Take(data, 8)
  }

  function ReadAssetBudget(data: Bytes): Option<Read<AssetBudget>> {
    match ReadPubkey(data)
    case None => None
    case Some(m) =>
      match ReadU64(m.rest)
      case None => None
      case Some(a) => Some(Read(AssetBudget(m.value, a.value), a.rest))
  }

  function ReadItems<T>(data: Bytes, n: nat, read: Reader<T>): Option<Read<seq<T>>>
    decreases n
  {
    if n == 0 then Some(Read([], data))
    else match read(data)
      case None => None
      case Some(x) =>
        match ReadItems(x.rest, n - 1, read)
        case None => None
        case Some(xs) => Some(Read([x.value] + xs.value, xs.rest))
  }

  function ReadVec<T>(data: Bytes, read: Reader<T>): Option<Read<seq<T>>> {
    match ReadCount(data)
    case None => None
    case Some(n) => ReadItems(n.rest, n.value, read)
  }

  function ReadOption<T>(data: Bytes, read: Reader<T>): Option<Read<Option<T>>> {
    if data == [] || data[0] > 1 then None
    else if data[0] == 0 then Some(Read(None, data[1..]))
    else match read(data[1..])
      case None => None
      case Some(x) => Some(Read(Some(x.value), x.rest))
  }

  // An encoding, whatever follows it, reads back as the value and leaves what follows.
  ghost predicate RoundTrips<T(!new)>(encode: T -> Option<Bytes>, read: Reader<T>) {
    forall v, rest :: encode(v).Some? ==> read(encode(v).value + rest) == Some(Read(v, rest))
  }

  lemma IntegersRoundTrip()
    ensures RoundTrips(EncodeU16, ReadU16) && RoundTrips(EncodeU32, ReadU32)
    ensures RoundTrips(EncodeU64, ReadU64) && RoundTrips(EncodeI64, ReadI64)
  {
    Widths();
    hide LE, FromLE, Pow256;
    forall n: nat, k: nat, rest: Bytes | n < Pow256(k)
      ensures Take(LE(n, k) + rest, k) == Some(Read(LE(n, k), rest)) && FromLE(LE(n, k)) == n
    {
      FromLEOfLE(n, k);
    }
  }

  lemma KeysRoundTrip()
    ensures RoundTrips(EncodePubkey, ReadPubkey) && RoundTrips(EncodeAction, ReadAction)
    ensures RoundTrips(EncodeAssetBudget, ReadAssetBudget)
  {
    IntegersRoundTrip();
    hide EncodeU64, ReadU64;
    forall b: AssetBudget, rest: Bytes | EncodeAssetBudget(b).Some?
      ensures ReadAssetBudget(EncodeAssetBudget(b).value + rest) == Some(Read(b, rest))
    {
      assert EncodeAssetBudget(b).value + rest == b.mint + (EncodeU64(b.amount).value + rest);
    }
  }

  lemma {:induction false} ItemsRoundTrip<T(!new)>(items: seq<T>, encode: T -> Option<Bytes>, read: Reader<T>, rest: Bytes)
    requires RoundTrips(encode, read) && EncodeItems(items, encode).Some?
    ensures ReadItems(EncodeItems(items, encode).value + rest, |items|, read) == Some(Read(items, rest))
  {
    if items == [] {
      assert [] + rest == rest;
    } else {
      var more := EncodeItems(items[1..], encode).value;
      ItemsRoundTrip(items[1..], encode, read, rest);
      assert items == [items[0]] + items[1..];
      assert read(encode(items[0]).value + (more + rest)) == Some(Read(items[0], more + rest));
      assert EncodeItems(items, encode).value + rest == encode(items[0]).value + (more + rest);
    }
  }

  lemma VecRoundTrips<T(!new)>(encode: T -> Option<Bytes>, read: Reader<T>)
    requires RoundTrips(encode, read)
    ensures forall v, rest | EncodeVec(v, encode).Some? ::
              ReadVec(EncodeVec(v, encode).value + rest, read) == Some(Read(v, rest))
  {
    IntegersRoundTrip();
    hide EncodeU32, ReadCount;
    forall v: seq<T>, rest: Bytes | EncodeVec(v, encode).Some?
      ensures ReadVec(EncodeVec(v, encode).value + rest, read) == Some(Read(v, rest))
    {
      var n, items := EncodeU32(|v| as real).value, EncodeItems(v, encode).value;
      assert EncodeVec(v, encode).value + rest == n + (items + rest);
      ItemsRoundTrip(v, encode, read, rest);
    }
  }

  lemma OptionRoundTrips<T(!new)>(encode: T -> Option<Bytes>, read: Reader<T>)
    requires RoundTrips(encode, read)
    ensures forall v, rest | EncodeOption(v, encode).Some? ::
              ReadOption(EncodeOption(v, encode).value + rest, read) == Some(Read(v, rest))
  {
    forall v: Option<T>, rest: Bytes | EncodeOption(v, encode).Some?
      ensures ReadOption(EncodeOption(v, encode).value + rest, read) == Some(Read(v, rest))
    {
      if v.Some? {
        assert EncodeOption(v, encode).value + rest == [1] + (encode(v.value).value + rest);
      } else {
        assert ([0] + rest)[1..] == rest;
      }
    }
  }

  // ---- set_policy --------------------------------------------------------------

  datatype Policy = Policy(routineBudget: Option<seq<AssetBudget>>, discretionaryBudget: Option<seq<AssetBudget>>,
                           thresholdLamports: Option<int>, thresholdPerToken: Option<seq<AssetBudget>>,
                           secondarySigner: Option<Option<Pubkey>>, feeBps: Option<real>, acceptedAssets: Option<seq<Pubkey>>)

  const SET_POLICY: Bytes := [40, 133, 12, 157, 235, 202, 2, 132]
  const UPDATE_OPERATIONS: Bytes := [21, 13, 197, 41, 92, 229, 142, 202]

  function EncodeBudgetVec(items: seq<AssetBudget>): Option<Bytes> {
    EncodeVec(items, EncodeAssetBudget)
  }

  function EncodeBudgets(v: Option<seq<AssetBudget>>): Option<Bytes> {
    EncodeOption(v, EncodeBudgetVec)
  }

  function EncodeKeyVec(items: seq<Pubkey>): Option<Bytes> {
    EncodeVec(items, EncodePubkey)
  }

  function EncodeKeys(v: Option<seq<Pubkey>>): Option<Bytes> {
    EncodeOption(v, EncodeKeyVec)
  }

  function EncodeThreshold(v: Option<int>): Option<Bytes> {
    EncodeOption(v, EncodeU64)
  }

  function EncodeFee(v: Option<real>): Option<Bytes> {
    EncodeOption(v, EncodeU16)
  }

  function SetPolicyData(p: Policy): Option<Bytes> {
    Both(Some(SET_POLICY),
      Both(EncodeBudgets(p.routineBudget),
        Both(EncodeBudgets(p.discretionaryBudget),
          Both(EncodeThreshold(p.thresholdLamports),
            Both(EncodeBudgets(p.thresholdPerToken),
              Both(EncodeSecondarySigner(p.secondarySigner),
                Both(EncodeFee(p.feeBps), EncodeKeys(p.acceptedAssets))))))))
  }

  function ReadBudgetVec(data: Bytes): Option<Read<seq<AssetBudget>>> {
    ReadVec(data, ReadAssetBudget)
  }

  function ReadBudgets(data: Bytes): Option<Read<Option<seq<AssetBudget>>>> {
    ReadOption(data, ReadBudgetVec)
  }

  function ReadKeyVec(data: Bytes): Option<Read<seq<Pubkey>>> {
    ReadVec(data, ReadPubkey)
  }

  function ReadKeys(data: Bytes): Option<Read<Option<seq<Pubkey>>>> {
    ReadOption(data, ReadKeyVec)
  }

  function ReadOptionalKey(data: Bytes): Option<Read<Option<Pubkey>>> {
    ReadOption(data, ReadPubkey)
  }

  function ReadSigner(data: Bytes): Option<Read<Option<Option<Pubkey>>>> {
    ReadOption(data, ReadOptionalKey)
  }

  function ReadThreshold(data: Bytes): Option<Read<Option<int>>> {
    ReadOption(data, ReadU64)
  }

  function ReadFee(data: Bytes): Option<Read<Option<real>>> {
    ReadOption(data, ReadU16)
  }

  function ReadTag(data: Bytes, tag: Bytes): Option<Bytes> {
    if tag <= data then Some(data[|tag|..]) else None
  }

  // The on-chain program's reading of the seven fields, in order.
  function ReadSetPolicy(data: Bytes): Option<Read<Policy>> {
    match ReadTag(data, SET_POLICY) case None => None case Some(d0) =>
    match ReadBudgets(d0) case None => None case Some(r1) =>
    match ReadBudgets(r1.rest) case None => None case Some(r2) =>
    match ReadThreshold(r2.rest) case None => None case Some(r3) =>
    match ReadBudgets(r3.rest) case None => None case Some(r4) =>
    match ReadSigner(r4.rest) case None => None case Some(r5) =>
    match ReadFee(r5.rest) case None => None case Some(r6) =>
    match ReadKeys(r6.rest) case None => None case Some(r7) =>
    Some(Read(Policy(r1.value, r2.value, r3.value, r4.value, r5.value, r6.value, r7.value), r7.rest))
  }

  lemma FieldsRoundTrip()
    ensures RoundTrips(EncodeBudgets, ReadBudgets) && RoundTrips(EncodeKeys, ReadKeys)
    ensures RoundTrips(EncodeThreshold, ReadThreshold) && RoundTrips(EncodeFee, ReadFee)
    ensures RoundTrips(EncodeSecondarySigner, ReadSigner)
  {
    IntegersRoundTrip();
    KeysRoundTrip();
    VecRoundTrips(EncodeAssetBudget, ReadAssetBudget);
    VecRoundTrips(EncodePubkey, ReadPubkey);
    hide EncodeVec, ReadVec, EncodeAssetBudget, ReadAssetBudget, EncodeU16, EncodeU64, ReadU16, ReadU64;
    OptionRoundTrips(EncodeBudgetVec, ReadBudgetVec);
    OptionRoundTrips(EncodeKeyVec, ReadKeyVec);
    OptionRoundTrips(EncodeU64, ReadU64);
    OptionRoundTrips(EncodeU16, ReadU16);
    hide EncodeOption;
    SignerRoundTrips();
  }

  lemma SignerRoundTrips()
    ensures RoundTrips(EncodeSecondarySigner, ReadSigner)
  {
    forall v: Option<Option<Pubkey>>, rest: Bytes
      ensures ReadSigner(EncodeSecondarySigner(v).value + rest) == Some(Read(v, rest))
    {
      var data := EncodeSecondarySigner(v).value + rest;
      match v {
        case None => assert data[1..] == rest;
        case Some(None) => assert data[1..][1..] == rest;
        case Some(Some(k)) => assert data[1..][1..] == k + rest;
      }
    }
  }

  lemma TwoParts<A(!new)>(encodeA: A -> Option<Bytes>, readA: Reader<A>, a: A, tail: Option<Bytes>, rest: Bytes)
    requires RoundTrips(encodeA, readA) && Both(encodeA(a), tail).Some?
    ensures readA(Both(encodeA(a), tail).value + rest) == Some(Read(a, tail.value + rest))
  {
    assert Both(encodeA(a), tail).value + rest == encodeA(a).value + (tail.value + rest);
  }

  /** Whatever follows a payload, it decodes to exactly the parameters that produced it. */
  lemma SetPolicyRoundTrip(p: Policy, rest: Bytes)
    requires SetPolicyData(p).Some?
    ensures ReadSetPolicy(SetPolicyData(p).value + rest) == Some(Read(p, rest))
  {
    FieldsRoundTrip();
    hide RoundTrips, EncodeBudgets, EncodeThreshold, EncodeSecondarySigner, EncodeFee, EncodeKeys;
    hide ReadBudgets, ReadThreshold, ReadSigner, ReadFee, ReadKeys;
    var t7 := EncodeKeys(p.acceptedAssets);
    var t6 := Both(EncodeFee(p.feeBps), t7);
    var t5 := Both(EncodeSecondarySigner(p.secondarySigner), t6);
    var t4 := Both(EncodeBudgets(p.thresholdPerToken), t5);
    var t3 := Both(EncodeThreshold(p.thresholdLamports), t4);
    var t2 := Both(EncodeBudgets(p.discretionaryBudget), t3);
    var t1 := Both(EncodeBudgets(p.routineBudget), t2);
    assert SetPolicyData(p).value + rest == SET_POLICY + (t1.value + rest);
    TwoParts(EncodeBudgets, ReadBudgets, p.routineBudget, t2, rest);
    TwoParts(EncodeBudgets, ReadBudgets, p.discretionaryBudget, t3, rest);
    TwoParts(EncodeThreshold, ReadThreshold, p.thresholdLamports, t4, rest);
    TwoParts(EncodeBudgets, ReadBudgets, p.thresholdPerToken, t5, rest);
    TwoParts(EncodeSecondarySigner, ReadSigner, p.secondarySigner, t6, rest);
    TwoParts(EncodeFee, ReadFee, p.feeBps, t7, rest);
    Whole(EncodeKeys, ReadKeys, p.acceptedAssets, rest);
  }

  lemma Whole<A(!new)>(encode: A -> Option<Bytes>, read: Reader<A>, a: A, rest: Bytes)
    requires RoundTrips(encode, read) && encode(a).Some?
    ensures read(encode(a).value + rest) == Some(Read(a, rest))
  {
  }

  /** So no payload is a prefix of another one, and different parameters give different payloads. */
  lemma SetPolicyIsPrefixFree(p: Policy, q: Policy)
    requires SetPolicyData(p).Some? && SetPolicyData(q).Some? && SetPolicyData(p).value <= SetPolicyData(q).value
    ensures p == q
  {
    var a, b := SetPolicyData(p).value, SetPolicyData(q).value;
    SetPolicyRoundTrip(p, b[|a|..]);
    SetPolicyRoundTrip(q, []);
    assert a + b[|a|..] == b + [];
  }

  // ---- when a payload can be built ---------------------------------------------

  predicate BudgetsFit(v: Option<seq<AssetBudget>>) {
    v.Some? ==> |v.value| <= 0xffff_ffff && forall b | b in v.value :: 0 <= b.amount <= 0xffff_ffff_ffff_ffff
  }

  lemma {:induction false} ItemsFit<T(!new)>(items: seq<T>, encode: T -> Option<Bytes>)
    ensures EncodeItems(items, encode).Some? <==> forall x | x in items :: encode(x).Some?
  {
    if items != [] {
      ItemsFit(items[1..], encode);
      assert items == [items[0]] + items[1..];
    }
  }

  /** Building the payload throws exactly when a number is out of range or a list too long. */
  lemma SetPolicyBuildsIff(p: Policy)
    ensures SetPolicyData(p).Some?
       <==> && BudgetsFit(p.routineBudget) && BudgetsFit(p.discretionaryBudget) && BudgetsFit(p.thresholdPerToken)
            && (p.thresholdLamports.Some? ==> 0 <= p.thresholdLamports.value <= 0xffff_ffff_ffff_ffff)
            && (p.feeBps.Some? ==> IsInteger(p.feeBps.value) && 0 <= p.feeBps.value.Floor <= 0xffff)
            && (p.acceptedAssets.Some? ==> |p.acceptedAssets.value| <= 0xffff_ffff)
  {
    BudgetsEncodeIff(p.routineBudget);
    BudgetsEncodeIff(p.discretionaryBudget);
    BudgetsEncodeIff(p.thresholdPerToken);
    if p.acceptedAssets.Some? {
      ItemsFit(p.acceptedAssets.value, EncodePubkey);
    }
    hide EncodeBudgets, BudgetsFit, EncodeItems;
  }

  lemma BudgetsEncodeIff(v: Option<seq<AssetBudget>>)
    ensures EncodeBudgets(v).Some? <==> BudgetsFit(v)
  {
    if v.Some? {
      ItemsFit(v.value, EncodeAssetBudget);
    }
    hide EncodeItems;
  }

  // ---- update_operations_capability --------------------------------------------

  datatype Capability = Capability(whitelist: Option<seq<Bytes>>, rateLimit: Option<real>, expiry: Option<int>)

  function EncodeActionVec(items: seq<Bytes>): Option<Bytes> {
    EncodeVec(items, EncodeAction)
  }

  function EncodeWhitelist(v: Option<seq<Bytes>>): Option<Bytes> {
    EncodeOption(v, EncodeActionVec)
  }

  function EncodeRate(v: Option<real>): Option<Bytes> {
    EncodeOption(v, EncodeU32)
  }

  function EncodeExpiry(v: Option<int>): Option<Bytes> {
    EncodeOption(v, EncodeI64)
  }

  function UpdateOperationsData(c: Capability): Option<Bytes> {
    Both(Some(UPDATE_OPERATIONS), Both(EncodeWhitelist(c.whitelist), Both(EncodeRate(c.rateLimit), EncodeExpiry(c.expiry))))
  }

  function ReadActionVec(data: Bytes): Option<Read<seq<Bytes>>> {
    ReadVec(data, ReadAction)
  }

  function ReadWhitelist(data: Bytes): Option<Read<Option<seq<Bytes>>>> {
    ReadOption(data, ReadActionVec)
  }

  function ReadRate(data: Bytes): Option<Read<Option<real>>> {
    ReadOption(data, ReadU32)
  }

  function ReadExpiry(data: Bytes): Option<Read<Option<int>>> {
    ReadOption(data, ReadI64)
  }

  function ReadUpdateOperations(data: Bytes): Option<Read<Capability>> {
    match ReadTag(data, UPDATE_OPERATIONS) case None => None case Some(d0) =>
    match ReadWhitelist(d0) case None => None case Some(r1) =>
    match ReadRate(r1.rest) case None => None case Some(r2) =>
    match ReadExpiry(r2.rest) case None => None case Some(r3) =>
    Some(Read(Capability(r1.value, r2.value, r3.value), r3.rest))
  }

  lemma CapabilityFieldsRoundTrip()
    ensures RoundTrips(EncodeWhitelist, ReadWhitelist) && RoundTrips(EncodeRate, ReadRate) && RoundTrips(EncodeExpiry, ReadExpiry)
  {
    IntegersRoundTrip();
    KeysRoundTrip();
    VecRoundTrips(EncodeAction, ReadAction);
    hide EncodeVec, ReadVec, EncodeAction, ReadAction, EncodeU32, ReadU32, EncodeI64, ReadI64;
    OptionRoundTrips(EncodeActionVec, ReadActionVec);
    OptionRoundTrips(EncodeU32, ReadU32);
    OptionRoundTrips(EncodeI64, ReadI64);
  }

  /** The same for an operations update, and it is never mistaken for a policy. */
  lemma UpdateOperationsRoundTrip(c: Capability, rest: Bytes)
    requires UpdateOperationsData(c).Some?
    ensures ReadUpdateOperations(UpdateOperationsData(c).value + rest) == Some(Read(c, rest))
    ensures ReadSetPolicy(UpdateOperationsData(c).value + rest).None?
  {
    CapabilityFieldsRoundTrip();
    hide RoundTrips, EncodeWhitelist, EncodeRate, EncodeExpiry, ReadWhitelist, ReadRate, ReadExpiry;
    var t3 := EncodeExpiry(c.expiry);
    var t2 := Both(EncodeRate(c.rateLimit), t3);
    var t1 := Both(EncodeWhitelist(c.whitelist), t2);
    var data := UpdateOperationsData(c).value + rest;
    assert data == UPDATE_OPERATIONS + (t1.value + rest);
    TwoParts(EncodeWhitelist, ReadWhitelist, c.whitelist, t2, rest);
    TwoParts(EncodeRate, ReadRate, c.rateLimit, t3, rest);
    Whole(EncodeExpiry, ReadExpiry, c.expiry, rest);
    assert data[0] == 21;
  }

  // ---- where the bytes go ------------------------------------------------------

  /** Byte i of a little-endian number is its digit of weight 256^i. */
  lemma {:induction false} DigitsAscend(n: nat, k: nat, i: nat)
    requires i < k
    ensures LE(n, k)[i] == n / Pow256(i) % 256
  {
    if i > 0 {
      DigitsAscend(n / 256, k - 1, i - 1);
      DivTwice(n, Pow256(i - 1));
    }
  }

  lemma DivTwice(n: nat, p: nat)
    requires p > 0
    ensures n / 256 / p == n / (256 * p)
  {
    var q, r := n / 256 / p, n / 256 % p;
    var s := n % 256;
    assert n == 256 * (p * q + r) + s;
    assert n == 256 * p * q + (256 * r + s) by {
      assert 256 * (p * q + r) == 256 * p * q + 256 * r;
    }
    assert 0 <= 256 * r + s < 256 * p;
    DivIs(n, 256 * p, q, 256 * r + s);
  }

  lemma DivIs(n: nat, d: nat, q: nat, r: nat)
    requires d > 0 && r < d && n == d * q + r
    ensures n / d == q
  {
    var e := n / d - q;
    assert d * e == r - n % d by {
      assert n == d * (n / d) + n % d;
      assert d * (n / d - q) == d * (n / d) - d * q;
    }
  }

  const UNCHANGED := Policy(None, None, None, None, None, None, None)

  function Zeros(n: nat): (r: Bytes)
    ensures |r| == n && forall i | 0 <= i < n :: r[i] == 0
  {
    seq(n, _ => 0)
  }

  // The tag, some absent fields, one field, and the other absent ones.
  function Alone(before: nat, field: Option<Bytes>, behind: nat): Option<Bytes> {
    if field.None? then None else Some(SET_POLICY + Zeros(before) + field.value + Zeros(behind))
  }

  // Absent fields in front of what follows them.
  function Padded(n: nat, tail: Option<Bytes>): Option<Bytes> {
    if n == 0 then tail else Both(Some([0]), Padded(n - 1, tail))
  }

  lemma {:induction false} PaddedIs(n: nat, tail: Option<Bytes>)
    ensures Padded(n, tail) == if tail.None? then None else Some(Zeros(n) + tail.value)
  {
    if n == 0 {
      assert tail.Some? ==> Zeros(0) + tail.value == tail.value;
    } else {
      PaddedIs(n - 1, tail);
      assert tail.Some? ==> [0] + (Zeros(n - 1) + tail.value) == Zeros(n) + tail.value;
    }
  }

  lemma AloneIs(before: nat, field: Option<Bytes>, behind: nat)
    ensures Both(Some(SET_POLICY), Padded(before, Both(field, Padded(behind, Some([]))))) == Alone(before, field, behind)
    ensures Both(Some(SET_POLICY), Padded(before, field)) == Alone(before, field, 0)
  {
    PaddedIs(behind, Some([]));
    PaddedIs(before, Both(field, Padded(behind, Some([]))));
    PaddedIs(before, field);
    if field.Some? {
      assert Zeros(behind) + [] == Zeros(behind);
      assert SET_POLICY + (Zeros(before) + (field.value + Zeros(behind))) == SET_POLICY + Zeros(before) + field.value + Zeros(behind);
      assert SET_POLICY + (Zeros(before) + field.value) == SET_POLICY + Zeros(before) + field.value + Zeros(0);
    }
  }

  /** A policy update with one field set: that field stands at its place among the seven, the others are single zeros. */
  lemma PolicyFieldsInOrder(budgets: Option<seq<AssetBudget>>, lamports: Option<int>, signer: Option<Option<Pubkey>>,
                            fee: Option<real>, assets: Option<seq<Pubkey>>)
    ensures SetPolicyData(UNCHANGED.(routineBudget := budgets)) == Alone(0, EncodeBudgets(budgets), 6)
    ensures SetPolicyData(UNCHANGED.(discretionaryBudget := budgets)) == Alone(1, EncodeBudgets(budgets), 5)
    ensures SetPolicyData(UNCHANGED.(thresholdLamports := lamports)) == Alone(2, EncodeThreshold(lamports), 4)
    ensures SetPolicyData(UNCHANGED.(thresholdPerToken := budgets)) == Alone(3, EncodeBudgets(budgets), 3)
    ensures SetPolicyData(UNCHANGED.(secondarySigner := signer)) == Alone(4, EncodeSecondarySigner(signer), 2)
    ensures SetPolicyData(UNCHANGED.(feeBps := fee)) == Alone(5, EncodeFee(fee), 1)
    ensures SetPolicyData(UNCHANGED.(acceptedAssets := assets)) == Alone(6, EncodeKeys(assets), 0)
  {
    hide SetPolicyData, Alone;
    RoutineBudgetAlone(budgets);
    DiscretionaryBudgetAlone(budgets);
    ThresholdLamportsAlone(lamports);
    ThresholdPerTokenAlone(budgets);
    SecondarySignerAlone(signer);
    FeeBpsAlone(fee);
    AcceptedAssetsAlone(assets);
  }

  lemma RoutineBudgetAlone(v: Option<seq<AssetBudget>>)
    ensures SetPolicyData(UNCHANGED.(routineBudget := v)) == Alone(0, EncodeBudgets(v), 6)
  {
    hide EncodeBudgets, EncodeThreshold, EncodeSecondarySigner, EncodeFee, EncodeKeys, Alone, Both, Padded;
    AbsentFields();
    AbsentPads();
    AloneIs(0, EncodeBudgets(v), 6);
  }

  lemma DiscretionaryBudgetAlone(v: Option<seq<AssetBudget>>)
    ensures SetPolicyData(UNCHANGED.(discretionaryBudget := v)) == Alone(1, EncodeBudgets(v), 5)
  {
    hide EncodeBudgets, EncodeThreshold, EncodeSecondarySigner, EncodeFee, EncodeKeys, Alone, Both, Padded;
    AbsentFields();
    AbsentPads();
    AloneIs(1, EncodeBudgets(v), 5);
  }

  lemma ThresholdLamportsAlone(v: Option<int>)
    ensures SetPolicyData(UNCHANGED.(thresholdLamports := v)) == Alone(2, EncodeThreshold(v), 4)
  {
    hide EncodeBudgets, EncodeThreshold, EncodeSecondarySigner, EncodeFee, EncodeKeys, Alone, Both, Padded;
    AbsentFields();
    AbsentPads();
    AloneIs(2, EncodeThreshold(v), 4);
  }

  lemma ThresholdPerTokenAlone(v: Option<seq<AssetBudget>>)
    ensures SetPolicyData(UNCHANGED.(thresholdPerToken := v)) == Alone(3, EncodeBudgets(v), 3)
  {
    hide EncodeBudgets, EncodeThreshold, EncodeSecondarySigner, EncodeFee, EncodeKeys, Alone, Both, Padded;
    AbsentFields();
    AbsentPads();
    AloneIs(3, EncodeBudgets(v), 3);
  }

  lemma SecondarySignerAlone(v: Option<Option<Pubkey>>)
    ensures SetPolicyData(UNCHANGED.(secondarySigner := v)) == Alone(4, EncodeSecondarySigner(v), 2)
  {
    hide EncodeBudgets, EncodeThreshold, EncodeSecondarySigner, EncodeFee, EncodeKeys, Alone, Both, Padded;
    AbsentFields();
    AbsentPads();
    AloneIs(4, EncodeSecondarySigner(v), 2);
  }

  lemma FeeBpsAlone(v: Option<real>)
    ensures SetPolicyData(UNCHANGED.(feeBps := v)) == Alone(5, EncodeFee(v), 1)
  {
    hide EncodeBudgets, EncodeThreshold, EncodeSecondarySigner, EncodeFee, EncodeKeys, Alone, Both, Padded;
    AbsentFields();
    AbsentPads();
    AloneIs(5, EncodeFee(v), 1);
  }

  lemma AcceptedAssetsAlone(v: Option<seq<Pubkey>>)
    ensures SetPolicyData(UNCHANGED.(acceptedAssets := v)) == Alone(6, EncodeKeys(v), 0)
  {
    hide EncodeBudgets, EncodeThreshold, EncodeSecondarySigner, EncodeFee, EncodeKeys, Alone, Both, Padded;
    AbsentFields();
    AbsentPads();
    AloneIs(6, EncodeKeys(v), 0);
  }

  lemma AbsentFields()
    ensures EncodeBudgets(None) == Some([0]) && EncodeThreshold(None) == Some([0]) && EncodeSecondarySigner(None) == Some([0])
    ensures EncodeFee(None) == Some([0]) && EncodeKeys(None) == Some([0])
  {
  }

  // Padding, field by field.
  lemma AbsentPads()
    ensures Padded(1, Some([])) == Some([0])
    ensures forall t :: Padded(0, t) == t
    ensures forall t :: Padded(1, t) == Both(Some([0]), t)
    ensures forall t :: Padded(2, t) == Both(Some([0]), Padded(1, t))
    ensures forall t :: Padded(3, t) == Both(Some([0]), Padded(2, t))
    ensures forall t :: Padded(4, t) == Both(Some([0]), Padded(3, t))
    ensures forall t :: Padded(5, t) == Both(Some([0]), Padded(4, t))
    ensures forall t :: Padded(6, t) == Both(Some([0]), Padded(5, t))
  {
    hide Both;
    assert Both(Some([0]), Some([])) == Some([0]) by { JustZero(); }
  }

  lemma JustZero()
    ensures Both(Some([0]), Some([])) == Some([0])
  {
    assert [0] + [] == [0];
  }

  /** A budget entry is the mint followed by the amount; an operations update has whitelist, rate limit and expiry in this order. */
  lemma EntriesInOrder(b: AssetBudget, whitelist: Option<seq<Bytes>>, rate: Option<real>, expiry: Option<int>)
    requires 0 <= b.amount <= 0xffff_ffff_ffff_ffff
    ensures EncodeAssetBudget(b) == Some(b.mint + LE(b.amount, 8))
    ensures var w := EncodeWhitelist(whitelist);
            UpdateOperationsData(Capability(whitelist, None, None)) == if w.Some? then Some(UPDATE_OPERATIONS + w.value + [0, 0]) else None
    ensures var r := EncodeRate(rate);
            UpdateOperationsData(Capability(None, rate, None)) == if r.Some? then Some(UPDATE_OPERATIONS + [0] + r.value + [0]) else None
    ensures var e := EncodeExpiry(expiry);
            UpdateOperationsData(Capability(None, None, expiry)) == if e.Some? then Some(UPDATE_OPERATIONS + [0, 0] + e.value) else None
  {
    hide LE;
    assert EncodeWhitelist(None) == Some([0]) && EncodeRate(None) == Some([0]) && EncodeExpiry(None) == Some([0]);
    var w, r, e := EncodeWhitelist(whitelist), EncodeRate(rate), EncodeExpiry(expiry);
    hide EncodeWhitelist, EncodeRate, EncodeExpiry;
    assert w.Some? ==> UPDATE_OPERATIONS + (w.value + ([0] + [0])) == UPDATE_OPERATIONS + w.value + [0, 0];
    assert r.Some? ==> UPDATE_OPERATIONS + ([0] + (r.value + [0])) == UPDATE_OPERATIONS + [0] + r.value + [0];
    assert e.Some? ==> UPDATE_OPERATIONS + ([0] + ([0] + e.value)) == UPDATE_OPERATIONS + [0, 0] + e.value;
  }
}
