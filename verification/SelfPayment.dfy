/** Two runs of the code from a genesis that begin with a payment to oneself: one destroys an output, in the other
    the same signed transaction is added twice. */
module SelfPayments {
  import opened Prelude
  import opened ByteStrings
  import opened Crypto
  import opened ProofOfWork
  import opened Transactions
  import opened Ledgers
  import opened CoinSelection
  import opened Spending
  import opened Nodes
  import opened Executions
  import opened HonestRuns
  import opened Payments
  import opened Creation
  import opened Chains
  import opened Reload
  import opened ToyWorld

  /** ---------- Blocks with one payment ---------- */

  /** In the toy world a block with one verified payment is always mined; it is added if and only if the payment applies. */
  lemma ToyAdds(n: Node, t: TxV, miner: Bytes, cb: TxV, l: Ledger, ok: bool)
    requires 0 < |n.chain| < 10 && n.bits == DEFAULT_TARGET_BITS && !IsCoinbase(t.inputs)
    requires Verified(ToyEnv(), t.inputs, t.outputs, n.ledger.recorded) == Ok(true)
    requires cb == CoinbaseTx(ToyEnv(), miner, BlockData(|n.chain|), REWARD)
    requires Update(Add(n.ledger, cb.id, cb.outputs), t) == (l, ok)
    ensures Leaves(n, AddBlock(ToyEnv(), n, [t], miner, 0, 0), l, ok)
  {
    VerifyOne(ToyEnv(), n.ledger.recorded, t);
    assert [cb] + [t] == [cb, t];
    ToyExtends(n, cb, t, l, ok);
  }

  /** The attempt at node `n` leaves ledger `l`, and adds a block or not. */
  predicate Leaves(n: Node, after: (Node, AddResult), l: Ledger, ok: bool) {
    && after.0.ledger == l && after.0.bits == n.bits
    && if ok then after.1.Added? && after.0.chain == n.chain + [after.1.block] else after.1 == Failed && after.0.chain == n.chain
  }

  lemma ToyExtends(n: Node, cb: TxV, t: TxV, l: Ledger, ok: bool)
    requires 0 < |n.chain| < 10 && n.bits == DEFAULT_TARGET_BITS && IsCoinbase(cb.inputs) && !IsCoinbase(t.inputs)
    requires Update(Add(n.ledger, cb.id, cb.outputs), t) == (l, ok)
    ensures Leaves(n, Extended(ToyEnv(), n, [cb, t], 0, 0), l, ok)
  {
    MinedBlockAccepted(ToyEnv(), n, [cb, t], 0, 0);
    NeverExhausted(Template(ToyEnv(), n, [cb, t], 0));
    UpdateTwo(n.ledger, cb, t);
  }

  /** The signature every message gets. */
  function Sig(): Bytes {
    EncodeSignature((Pow(256, 15), Pow(256, 15)))
  }

  function SignedInput(id: Bytes, k: nat): TxInput {
    TxInput(Some(id), k, Sig(), OWNER)
  }

  predicate AllSigned(inputs: seq<TxInput>, prev: Prev) {
    forall j :: 0 <= j < |inputs| ==> InRange(inputs[j], prev) && inputs[j].signature == Sig()
  }

  lemma ToyVerifies(inputs: seq<TxInput>, outputs: seq<TxOutput>, prev: Prev)
    requires !IsCoinbase(inputs) && AllSigned(inputs, prev)
    ensures Verified(ToyEnv(), inputs, outputs, prev) == Ok(true)
  {
    PowLength(15);
    forall j | 0 <= j < |inputs| ensures SignatureGood(ToyEnv(), inputs, outputs, prev, j) {
      assert InRange(inputs[j], prev) && inputs[j].signature == Sig();
    }
    VerifyFromSound(ToyEnv(), inputs, outputs, prev, 0);
  }

  /** Signing the inputs gives each the same signature. */
  lemma ToySigns(inputs: seq<TxInput>, signed: seq<TxInput>, outputs: seq<TxOutput>, prev: Prev)
    requires !IsCoinbase(inputs) && |signed| == |inputs|
    requires forall j :: 0 <= j < |inputs| ==> InRange(inputs[j], prev) && signed[j] == inputs[j].(signature := Sig())
    ensures Unsubmitted(ToyEnv(), Payer(), prev, inputs, outputs, 0) ==
      Ok(TxV(BodyHash(TxBody(inputs, outputs)), signed, outputs))
  {
    SignFromSpec(ToyEnv(), Payer(), inputs, outputs, prev, 0, 0);
    var r := Signed(ToyEnv(), Payer(), inputs, outputs, prev, 0);
    assert r.Ok?;
    forall j | 0 <= j < |inputs| ensures r.value[j] == signed[j] { }
    assert r.value == signed;
  }

  /** ---------- The payment to oneself ---------- */

  const GENESIS: Hash := Tag(1, 115, 32)
  const FIRST: Hash := Tag(1, 49, 32)
  const PAID: Hash := Tag(2, 1, 33)

  function SelfOutputs(): seq<TxOutput> {
    [TxOutput(1, OWNER), TxOutput(REWARD - 1, OWNER)]
  }

  /** One unit to oneself, and the change. */
  function SelfTx(): TxV {
    TxV(PAID, [SignedInput(GENESIS, 0)], SelfOutputs())
  }

  function StartLedger(): Ledger {
    Ledger(map[GENESIS := [TxOutput(REWARD, OWNER)]], map[GENESIS := [TxOutput(REWARD, OWNER)]])
  }

  lemma StartIs()
    ensures Start().ledger == StartLedger() && |Start().chain| == 1 && Start().bits == DEFAULT_TARGET_BITS
  {
    StartIsGenesis();
    CoinbaseHash(0, OWNER);
  }

  /** What CreateTransaction returns for a given selection. */
  lemma ToyCreates(l: Ledger, to: Bytes, amount: int, c: Choice, sel: Selection, inputs: seq<TxInput>, t: TxV)
    requires Enumerates(c.entries, l.live) && Select(l.live, c.entries, OWNER, amount) == sel && sel.accumulated >= amount
    requires Enumerates(c.picked, Group(sel.picks)) && c.tape == 0
    requires inputs == InputsFor(c.picked, Group(sel.picks), OWNER) && !IsCoinbase(inputs) && |t.inputs| == |inputs|
    requires forall j :: 0 <= j < |inputs| ==> InRange(inputs[j], l.recorded) && t.inputs[j] == inputs[j].(signature := Sig())
    requires t.outputs == NewOutputs(to, OWNER, amount, sel.accumulated) && t.id == BodyHash(TxBody(inputs, t.outputs))
    ensures ChoiceFits(ToyEnv(), l, OWNER, amount, c)
    ensures Created(ToyEnv(), l, OWNER, to, amount, Payer(), c) == Ok(t)
  {
    ToySigns(inputs, t.inputs, t.outputs, l.recorded);
  }

  /** The first output of the entry reaches the amount. */
  lemma SelectFirst(live: Entries, order: seq<Bytes>, id: Bytes, v: int, amount: int)
    requires Enumerates(order, live) && order != [] && order[0] == id && id in live && |live[id]| > 0
    requires live[id][0] == TxOutput(v, OWNER) && 0 < amount <= v <= MAX_INT64
    ensures Select(live, order, OWNER, amount) == Selection(v, [(id, 0)])
  {
    assert NOTHING.picks + [(id, 0)] == [(id, 0)];
  }

  /** It takes both outputs of the entry to reach the amount. */
  lemma SelectBoth(live: Entries, order: seq<Bytes>, id: Bytes, v: int, w: int)
    requires Enumerates(order, live) && order != [] && order[0] == id && id in live
    requires live[id] == [TxOutput(v, OWNER), TxOutput(w, OWNER)] && 0 < v && 0 < w && v + w <= MAX_INT64
    ensures Select(live, order, OWNER, v + w) == Selection(v + w, [(id, 0), (id, 1)])
  {
    var one, both := Selection(v, [(id, 0)]), Selection(v + w, [(id, 0), (id, 1)]);
    assert NOTHING.picks + [(id, 0)] == one.picks && one.picks + [(id, 1)] == both.picks;
    assert ScanEntry(id, live[id], 1, OWNER, v + w, one) == both;
    assert ScanEntry(id, live[id], 0, OWNER, v + w, NOTHING) == both;
  }

  lemma GroupOne(id: Bytes)
    ensures Group([(id, 0)]) == map[id := [0]]
    ensures InputsFor([id], map[id := [0]], OWNER) == [TxInput(Some(id), 0, [], OWNER)]
  {
    var picks: seq<Outpoint> := [(id, 0)];
    assert picks[..0] == [];
    var none: seq<nat> := [];
    assert none + [0] == [0] && [id][1..] == [];
    var group: map<Bytes, seq<nat>> := map[id := [0]];
    assert InputsFor([id], group, OWNER) == InputsOf(id, group[id], OWNER) + InputsFor([id][1..], group, OWNER);
  }

  lemma GroupBoth(id: Bytes)
    ensures Group([(id, 0), (id, 1)]) == map[id := [0, 1]]
    ensures InputsFor([id], map[id := [0, 1]], OWNER) == [TxInput(Some(id), 0, [], OWNER), TxInput(Some(id), 1, [], OWNER)]
  {
    GroupOne(id);
    var picks: seq<Outpoint> := [(id, 0), (id, 1)];
    assert picks[..1] == [(id, 0)];
    assert [0] + [1] == [0, 1] && [id][1..] == [];
    var group: map<Bytes, seq<nat>> := map[id := [0, 1]];
    assert InputsFor([id], group, OWNER) == InputsOf(id, group[id], OWNER) + InputsFor([id][1..], group, OWNER);
  }

  lemma SelfCreated()
    ensures var c := Choice([GENESIS], [GENESIS], 0);
      ChoiceFits(ToyEnv(), StartLedger(), OWNER, 1, c) &&
      Created(ToyEnv(), StartLedger(), OWNER, OWNER, 1, Payer(), c) == Ok(SelfTx())
  {
    SelectFirst(StartLedger().live, [GENESIS], GENESIS, REWARD, 1);
    GroupOne(GENESIS);
    var inputs := [TxInput(Some(GENESIS), 0, [], OWNER)];
    SelfShape(StartLedger().recorded, inputs);
    ToyCreates(StartLedger(), OWNER, 1, Choice([GENESIS], [GENESIS], 0), Selection(REWARD, [(GENESIS, 0)]), inputs, SelfTx());
  }

  lemma SelfShape(recorded: Prev, inputs: seq<TxInput>)
    requires GENESIS in recorded && |recorded[GENESIS]| == 1 && inputs == [TxInput(Some(GENESIS), 0, [], OWNER)]
    ensures forall j :: 0 <= j < 1 ==> InRange(inputs[j], recorded) && SelfTx().inputs[j] == inputs[j].(signature := Sig())
    ensures SelfTx().id == BodyHash(TxBody(inputs, SelfTx().outputs)) && !IsCoinbase(inputs)
    ensures SelfTx().outputs == NewOutputs(OWNER, OWNER, 1, REWARD)
  {
    SelfHash(inputs);
  }

  lemma SelfHash(inputs: seq<TxInput>)
    requires inputs == [TxInput(Some(GENESIS), 0, [], OWNER)]
    ensures SelfTx().id == BodyHash(TxBody(inputs, SelfTx().outputs)) && !IsCoinbase(inputs)
  {
    assert GENESIS[31] == 32;
  }

  /** What the UTXO set holds once the payment to oneself is mined by somebody else. */
  function SelfLive(): Entries {
    map[FIRST := [TxOutput(REWARD, OTHER)], PAID := SelfOutputs()]
  }

  ghost function AfterSelf(): Node {
    StartIs();
    AddBlock(ToyEnv(), Start(), [SelfTx()], OTHER, 0, 0).0
  }

  lemma FirstCoinbase()
    ensures CoinbaseTx(ToyEnv(), OTHER, BlockData(1), REWARD).id == FIRST
    ensures CoinbaseTx(ToyEnv(), OTHER, BlockData(1), REWARD).outputs == [TxOutput(REWARD, OTHER)]
  {
    CoinbaseHash(1, OTHER);
    assert CoinbaseData(1) == BlockData(1);
  }

  lemma TagsDiffer()
    ensures GENESIS != FIRST && GENESIS != PAID && FIRST != PAID
  {
    TagInjective(1, 115, 32, 1, 49, 32);
    TagInjective(1, 115, 32, 2, 1, 33);
    TagInjective(1, 49, 32, 2, 1, 33);
  }

  lemma SelfApplies()
    ensures var (l', ok) := Update(Add(StartLedger(), FIRST, [TxOutput(REWARD, OTHER)]), SelfTx());
      ok && l'.live == SelfLive() && PAID in l'.recorded && l'.recorded[PAID] == SelfOutputs()
  {
    TagsDiffer();
    var l := Add(StartLedger(), FIRST, [TxOutput(REWARD, OTHER)]);
    RemoveSingle(l, GENESIS);
    LastOneGoes(l, GENESIS, FIRST);
  }

  lemma LastOneGoes(l: Ledger, a: Bytes, b: Bytes)
    requires a != b && l.live.Keys == {a, b} && |l.live[a]| == 1
    ensures Spendable(l, a, 0) && Remove(l, a, 0).live == map[b := l.live[b]]
  {
  }

  lemma RemoveSingle(l: Ledger, id: Bytes)
    requires Spendable(l, id, 0)
    ensures RemoveInputs(l, [SignedInput(id, 0)]) == (Remove(l, id, 0), true)
  {
    var inputs := [SignedInput(id, 0)];
    assert inputs[1..] == [];
    assert RemoveInputs(l, inputs) == RemoveInputs(Remove(l, id, 0), inputs[1..]);
  }

  /** The payment to oneself is created, verified and mined like any other. */
  lemma SelfMined()
    ensures |Start().chain| == 1 && AddBlock(ToyEnv(), Start(), [SelfTx()], OTHER, 0, 0).1.Added?
    ensures AfterSelf().ledger.live == SelfLive() && |AfterSelf().chain| == 2 && AfterSelf().bits == DEFAULT_TARGET_BITS
    ensures PAID in AfterSelf().ledger.recorded && AfterSelf().ledger.recorded[PAID] == SelfOutputs()
  {
    StartIs();
    FirstCoinbase();
    SelfApplies();
    SelfVerifies();
    var (l, ok) := Update(Add(StartLedger(), FIRST, [TxOutput(REWARD, OTHER)]), SelfTx());
    ToyAdds(Start(), SelfTx(), OTHER, CoinbaseTx(ToyEnv(), OTHER, BlockData(1), REWARD), l, ok);
  }

  lemma SelfVerifies()
    ensures !IsCoinbase(SelfTx().inputs)
    ensures Verified(ToyEnv(), SelfTx().inputs, SelfTx().outputs, StartLedger().recorded) == Ok(true)
  {
    ToyVerifies(SelfTx().inputs, SelfTx().outputs, StartLedger().recorded);
  }

  /** ---------- A spend of both outputs ---------- */

  const SECOND: Hash := Tag(1, 50, 32)

  /** What the UTXO set holds once the spend has failed. */
  function BrokenLive(): Entries {
    map[FIRST := [TxOutput(REWARD, OTHER)], PAID := [TxOutput(REWARD - 1, OWNER)], SECOND := [TxOutput(REWARD, OTHER)]]
  }

  lemma BrokenIs(l: Ledger)
    requires l.live == SelfLive()[SECOND := [TxOutput(REWARD, OTHER)]][PAID := [TxOutput(REWARD - 1, OWNER)]]
    ensures l.live == BrokenLive()
  {
    SecondDiffers();
    TagsDiffer();
  }

  lemma SecondDiffers()
    ensures SECOND != GENESIS && SECOND != FIRST && SECOND != PAID
  {
    TagInjective(1, 50, 32, 1, 115, 32);
    TagInjective(1, 50, 32, 1, 49, 32);
    TagInjective(1, 50, 32, 2, 1, 33);
  }

  lemma Totals()
    ensures Total(SelfLive(), Everyone) == 2 * REWARD && Total(BrokenLive(), Everyone) == 3 * REWARD - 1
  {
    TagsDiffer();
    SecondDiffers();
    var empty: Entries := map[];
    var first: Entries := map[FIRST := [TxOutput(REWARD, OTHER)]];
    TotalInsert(empty, FIRST, [TxOutput(REWARD, OTHER)], Everyone);
    SumOne(TxOutput(REWARD, OTHER), Everyone);
    TotalInsert(first, PAID, SelfOutputs(), Everyone);
    PairSum(SelfOutputs()[0], SelfOutputs()[1], Everyone);
    assert SelfLive() == first[PAID := SelfOutputs()];
    TotalInsert(first, PAID, [TxOutput(REWARD - 1, OWNER)], Everyone);
    SumOne(TxOutput(REWARD - 1, OWNER), Everyone);
    var both := first[PAID := [TxOutput(REWARD - 1, OWNER)]];
    TotalInsert(both, SECOND, [TxOutput(REWARD, OTHER)], Everyone);
    assert BrokenLive() == both[SECOND := [TxOutput(REWARD, OTHER)]];
  }

  lemma AddedTxs(n: Node, t: TxV, miner: Bytes, cb: TxV)
    requires |n.chain| > 0 && AddBlock(ToyEnv(), n, [t], miner, 0, 0).1.Added?
    requires Verified(ToyEnv(), t.inputs, t.outputs, n.ledger.recorded) == Ok(true)
    requires cb == CoinbaseTx(ToyEnv(), miner, BlockData(|n.chain|), REWARD)
    ensures AddBlock(ToyEnv(), n, [t], miner, 0, 0).1.block.txs == [cb, t]
  {
    VerifyOne(ToyEnv(), n.ledger.recorded, t);
    AttemptIsMade(ToyEnv(), n, miner, [t], 0, 0);
    assert AllOf(ToyEnv(), n, miner, [t]) == [cb, t];
  }

  /** The blocks of a genesis, and of a block with a reward and the payment to oneself. */
  predicate SelfBlocks(chain: Chain) {
    && |chain| == 2 && |chain[0].txs| == 1 && |chain[1].txs| == 2
    && chain[0].txs[0].id == GENESIS && chain[1].txs[0].id == FIRST && chain[1].txs[1].id == PAID
  }

  lemma SelfChain()
    ensures SelfBlocks(AfterSelf().chain)
  {
    StartIs();
    StartIsGenesis();
    SelfMined();
    SelfVerifies();
    FirstCoinbase();
    CoinbaseHash(0, OWNER);
    AddedTxs(Start(), SelfTx(), OTHER, CoinbaseTx(ToyEnv(), OTHER, BlockData(1), REWARD));
    ActDifficulty(ToyEnv(), Start(), Submit([SelfTx()], OTHER, 0, 0));
  }

  /** No block carries the second reward. */
  lemma NotOnChain()
    ensures forall i :: 0 <= i < |AllTxs(AfterSelf().chain)| ==> AllTxs(AfterSelf().chain)[i].id != SECOND
  {
    SelfChain();
    SelfIds(AfterSelf().chain);
  }

  lemma SelfIds(chain: Chain)
    requires SelfBlocks(chain)
    ensures IdsAreHashes(chain)
    ensures forall i :: 0 <= i < |AllTxs(chain)| ==> AllTxs(chain)[i].id != SECOND
  {
    SecondDiffers();
    assert chain == [chain[0], chain[1]];
    TwoBlocks(chain[0], chain[1]);
  }

  lemma TwoBlocks(a: BlockV, b: BlockV)
    ensures AllTxs([a, b]) == a.txs + b.txs
  {
    assert [a, b][..1] == [a] && [a][..0] == [];
    assert AllTxs([a]) == [] + a.txs;
  }

  /** Everything the owner has, to somebody else. */
  function BothTx(): TxV {
    TxV(Tag(2, 2, 34), [SignedInput(PAID, 0), SignedInput(PAID, 1)], [TxOutput(REWARD, OTHER)])
  }

  lemma SelfOrder(live: Entries)
    requires live == SelfLive()
    ensures Enumerates([PAID, FIRST], live) && live[PAID] == SelfOutputs()
  {
    TagsDiffer();
  }

  lemma BothCreated(l: Ledger)
    requires l.live == SelfLive() && PAID in l.recorded && l.recorded[PAID] == SelfOutputs()
    ensures var c := Choice([PAID, FIRST], [PAID], 0);
      ChoiceFits(ToyEnv(), l, OWNER, REWARD, c) && Created(ToyEnv(), l, OWNER, OTHER, REWARD, Payer(), c) == Ok(BothTx())
  {
    var inputs := [TxInput(Some(PAID), 0, [], OWNER), TxInput(Some(PAID), 1, [], OWNER)];
    SelfOrder(l.live);
    SelectBoth(l.live, [PAID, FIRST], PAID, 1, REWARD - 1);
    GroupBoth(PAID);
    BothShape(l.recorded, inputs);
    ToyCreates(l, OTHER, REWARD, Choice([PAID, FIRST], [PAID], 0), Selection(REWARD, [(PAID, 0), (PAID, 1)]), inputs, BothTx());
  }

  lemma BothShape(recorded: Prev, inputs: seq<TxInput>)
    requires PAID in recorded && recorded[PAID] == SelfOutputs()
    requires inputs == [TxInput(Some(PAID), 0, [], OWNER), TxInput(Some(PAID), 1, [], OWNER)]
    ensures forall j :: 0 <= j < 2 ==> InRange(inputs[j], recorded) && BothTx().inputs[j] == inputs[j].(signature := Sig())
    ensures BothTx().id == BodyHash(TxBody(inputs, BothTx().outputs))
    ensures BothTx().outputs == NewOutputs(OTHER, OWNER, REWARD, REWARD)
  {
    BothHash(inputs);
  }

  lemma BothHash(inputs: seq<TxInput>)
    requires inputs == [TxInput(Some(PAID), 0, [], OWNER), TxInput(Some(PAID), 1, [], OWNER)]
    ensures BothTx().id == BodyHash(TxBody(inputs, BothTx().outputs))
  {
    assert PAID[31] == 33;
  }

  /** The second removal fails, and the first has taken its output away. */
  lemma BothFails(l: Ledger)
    requires PAID in l.live && l.live[PAID] == SelfOutputs()
    ensures var (l', ok) := Update(l, BothTx());
      !ok && l'.live == l.live[PAID := [TxOutput(REWARD - 1, OWNER)]]
  {
    var inputs := BothTx().inputs;
    assert inputs[1..] == [SignedInput(PAID, 1)];
    assert RemoveAt(SelfOutputs(), 0) == [TxOutput(REWARD - 1, OWNER)];
    assert RemoveInputs(l, inputs) == RemoveInputs(Remove(l, PAID, 0), inputs[1..]);
  }

  /** From a genesis: a payment to oneself is mined; then a payment of everything picks both of its outputs, passes
      verification, and fails in the update. No block is added, but one output is destroyed, and the UTXO set holds a
      reward for the block that failed: it is worth three rewards less one unit at a height of two. */
  lemma SelfPaymentBreaks()
    ensures |Start().chain| == 1
    ensures var c := Choice([GENESIS], [GENESIS], 0);
      ChoiceFits(ToyEnv(), Start().ledger, OWNER, 1, c) &&
      Created(ToyEnv(), Start().ledger, OWNER, OWNER, 1, Payer(), c) == Ok(SelfTx()) &&
      AddBlock(ToyEnv(), Start(), [SelfTx()], OTHER, 0, 0).1.Added?
    ensures PAID in AfterSelf().ledger.live && AfterSelf().ledger.live[PAID] == SelfOutputs() && |AfterSelf().chain| == 2
    ensures var c := Choice([PAID, FIRST], [PAID], 0);
      ChoiceFits(ToyEnv(), AfterSelf().ledger, OWNER, REWARD, c) &&
      Created(ToyEnv(), AfterSelf().ledger, OWNER, OTHER, REWARD, Payer(), c) == Ok(BothTx())
    ensures var (n', r) := AddBlock(ToyEnv(), AfterSelf(), [BothTx()], OTHER, 0, 0);
      r == Failed && n'.chain == AfterSelf().chain &&
      n'.ledger.live == BrokenLive() && n'.bits == AfterSelf().bits
    ensures forall i :: 0 <= i < |AllTxs(AfterSelf().chain)| ==> AllTxs(AfterSelf().chain)[i].id != SECOND
    ensures Total(SelfLive(), Everyone) == 2 * REWARD && Total(BrokenLive(), Everyone) == 3 * REWARD - 1
  {
    StartIs();
    SelfCreated();
    SelfMined();
    BothCreated(AfterSelf().ledger);
    BothRefused(AfterSelf());
    NotOnChain();
    Totals();
  }

  lemma SecondCoinbase(k: nat)
    requires 2 <= k <= 3
    ensures CoinbaseTx(ToyEnv(), OTHER, BlockData(k), REWARD).id != PAID
    ensures k == 2 ==> CoinbaseTx(ToyEnv(), OTHER, BlockData(k), REWARD).id == SECOND
  {
    CoinbaseHash(k, OTHER);
    assert CoinbaseData(k) == BlockData(k);
    TagInjective(1, Mark(k).0, Mark(k).1, 2, 1, 33);
  }

  lemma BothRefused(n: Node)
    requires |n.chain| == 2 && n.bits == DEFAULT_TARGET_BITS && n.ledger.live == SelfLive()
    requires PAID in n.ledger.recorded && n.ledger.recorded[PAID] == SelfOutputs()
    ensures var (n', r) := AddBlock(ToyEnv(), n, [BothTx()], OTHER, 0, 0);
      r == Failed && n'.chain == n.chain && n'.bits == n.bits && n'.ledger.live == BrokenLive()
  {
    var cb := CoinbaseTx(ToyEnv(), OTHER, BlockData(2), REWARD);
    SecondCoinbase(2);
    assert cb.id == SECOND && cb.outputs == [TxOutput(REWARD, OTHER)];
    BothVerifies(n.ledger.recorded);
    BothFails(Add(n.ledger, cb.id, cb.outputs));
    var (l, ok) := Update(Add(n.ledger, cb.id, cb.outputs), BothTx());
    BrokenIs(l);
    ToyAdds(n, BothTx(), OTHER, cb, l, ok);
  }

  lemma BothVerifies(recorded: Prev)
    requires PAID in recorded && recorded[PAID] == SelfOutputs()
    ensures !IsCoinbase(BothTx().inputs) && Verified(ToyEnv(), BothTx().inputs, BothTx().outputs, recorded) == Ok(true)
  {
    ToyVerifies(BothTx().inputs, BothTx().outputs, recorded);
  }

  /** ---------- A transaction added twice ---------- */

  /** One unit to somebody else, from the first output. */
  function OneTx(): TxV {
    TxV(Tag(2, 1, 34), [SignedInput(PAID, 0)], [TxOutput(1, OTHER)])
  }

  lemma OneCreated(l: Ledger)
    requires l.live == SelfLive() && PAID in l.recorded && l.recorded[PAID] == SelfOutputs()
    ensures var c := Choice([PAID, FIRST], [PAID], 0);
      ChoiceFits(ToyEnv(), l, OWNER, 1, c) && Created(ToyEnv(), l, OWNER, OTHER, 1, Payer(), c) == Ok(OneTx())
  {
    SelfOrder(l.live);
    SelectFirst(l.live, [PAID, FIRST], PAID, 1, 1);
    GroupOne(PAID);
    var inputs := [TxInput(Some(PAID), 0, [], OWNER)];
    OneShape(l.recorded, inputs);
    ToyCreates(l, OTHER, 1, Choice([PAID, FIRST], [PAID], 0), Selection(1, [(PAID, 0)]), inputs, OneTx());
  }

  lemma OneShape(recorded: Prev, inputs: seq<TxInput>)
    requires PAID in recorded && |recorded[PAID]| > 0 && inputs == [TxInput(Some(PAID), 0, [], OWNER)]
    ensures forall j :: 0 <= j < 1 ==> InRange(inputs[j], recorded) && OneTx().inputs[j] == inputs[j].(signature := Sig())
    ensures OneTx().id == BodyHash(TxBody(inputs, OneTx().outputs)) && !IsCoinbase(inputs)
    ensures OneTx().outputs == NewOutputs(OTHER, OWNER, 1, 1)
  {
    OneHash(inputs);
  }

  lemma OneHash(inputs: seq<TxInput>)
    requires inputs == [TxInput(Some(PAID), 0, [], OWNER)]
    ensures OneTx().id == BodyHash(TxBody(inputs, OneTx().outputs)) && !IsCoinbase(inputs)
  {
    assert PAID[31] == 33;
  }

  predicate Unspent(l: Ledger) {
    PAID in l.live && |l.live[PAID]| > 0 && PAID in l.recorded && |l.live[PAID]| <= |l.recorded[PAID]|
  }

  predicate FirstTaken(l: Ledger, l': Ledger) {
    && Unspent(l) && PAID in l'.recorded && |l'.recorded[PAID]| == |l.recorded[PAID]|
    && if |l.live[PAID]| == 1 then PAID !in l'.live else PAID in l'.live && l'.live[PAID] == RemoveAt(l.live[PAID], 0)
  }

  /** Applying it takes the first output, whatever that is now. */
  lemma OneApplies(l: Ledger)
    requires Unspent(l)
    ensures Update(l, OneTx()).1 && FirstTaken(l, Update(l, OneTx()).0)
  {
    RemoveSingle(l, PAID);
    TagInjective(2, 1, 33, 2, 1, 34);
  }

  lemma OneAdded(n: Node)
    requires 2 <= |n.chain| <= 3 && n.bits == DEFAULT_TARGET_BITS
    requires Unspent(n.ledger)
    ensures var (n', r) := AddBlock(ToyEnv(), n, [OneTx()], OTHER, 0, 0);
      r.Added? && |n'.chain| == |n.chain| + 1 && n'.bits == n.bits && FirstTaken(n.ledger, n'.ledger)
  {
    var cb := CoinbaseTx(ToyEnv(), OTHER, BlockData(|n.chain|), REWARD);
    SecondCoinbase(|n.chain|);
    OneVerifies(n.ledger);
    OneApplies(Add(n.ledger, cb.id, cb.outputs));
    var (l, ok) := Update(Add(n.ledger, cb.id, cb.outputs), OneTx());
    assert FirstTaken(n.ledger, l);
    ToyAdds(n, OneTx(), OTHER, cb, l, ok);
  }

  lemma OneVerifies(l: Ledger)
    requires Unspent(l)
    ensures !IsCoinbase(OneTx().inputs) && Verified(ToyEnv(), OneTx().inputs, OneTx().outputs, l.recorded) == Ok(true)
  {
    ToyVerifies(OneTx().inputs, OneTx().outputs, l.recorded);
  }

  /** After the same payment to oneself: a payment of one unit is mined, and the same signed transaction is mined again.
      It takes the change the second time: all that its owner had is gone, for one unit. */
  lemma SameTransactionTwice()
    ensures |Start().chain| == 1 && AddBlock(ToyEnv(), Start(), [SelfTx()], OTHER, 0, 0).1.Added?
    ensures var c := Choice([PAID, FIRST], [PAID], 0);
      ChoiceFits(ToyEnv(), AfterSelf().ledger, OWNER, 1, c) &&
      Created(ToyEnv(), AfterSelf().ledger, OWNER, OTHER, 1, Payer(), c) == Ok(OneTx())
    ensures |AfterSelf().chain| == 2 && AfterSelf().ledger.live == SelfLive()
    ensures var (n2, r2) := AddBlock(ToyEnv(), AfterSelf(), [OneTx()], OTHER, 0, 0);
      r2.Added? && |n2.chain| == 3 && PAID in n2.ledger.live && n2.ledger.live[PAID] == [TxOutput(REWARD - 1, OWNER)] &&
      var (n3, r3) := AddBlock(ToyEnv(), n2, [OneTx()], OTHER, 0, 0);
      r3.Added? && PAID !in n3.ledger.live
  {
    SelfMined();
    TagsDiffer();
    OneCreated(AfterSelf().ledger);
    OneAdded(AfterSelf());
    assert RemoveAt(SelfOutputs(), 0) == [TxOutput(REWARD - 1, OWNER)];
    OneAdded(AddBlock(ToyEnv(), AfterSelf(), [OneTx()], OTHER, 0, 0).0);
  }

  /** ---------- Reloading ---------- */

  /** The node after the spend has failed has the difficulty of its tip and no hashes that collide, and still it is not what
      loading gives back: that is the node before the spend. */
  lemma ReloadUndoesSpend()
    ensures |AfterSelf().chain| == 2 && NoHeaderCollision(ToyEnv(), AfterSelf().chain, AfterSelf().chain) && NoZeroHash(AfterSelf().chain)
    ensures var n' := AddBlock(ToyEnv(), AfterSelf(), [BothTx()], OTHER, 0, 0).0;
      n'.chain == AfterSelf().chain && n'.bits == TipBits(n'.chain) &&
      Loaded(StoreOf(n'.chain), 2) == Some(AfterSelf()) && Loaded(StoreOf(n'.chain), 2) != Some(n')
  {
    SelfMined();
    AfterSelfIsSound();
    BothRefused(AfterSelf());
    Totals();
    ReloadUndoes(ToyEnv(), AfterSelf(), Submit([BothTx()], OTHER, 0, 0));
  }

  lemma AfterSelfIsSound()
    ensures ChainOk(ToyEnv(), AfterSelf().chain) && Accounted(AfterSelf()) && AfterSelf().bits == TipBits(AfterSelf().chain)
    ensures NoHeaderCollision(ToyEnv(), AfterSelf().chain, AfterSelf().chain) && NoZeroHash(AfterSelf().chain)
  {
    var a := Submit([SelfTx()], OTHER, 0, 0);
    StartIsGenesis();
    SelfMined();
    GenesisChain(ToyEnv(), OWNER, 0);
    ActIsChainStep(ToyEnv(), Start(), a);
    StepKeepsChainOk(ToyEnv(), Start().chain, AfterSelf().chain);
    GenesisAccounted(ToyEnv(), OWNER, 0);
    AddedIsWhole(ToyEnv(), Start(), a);
    ActAccounts(ToyEnv(), Start(), a);
    ActDifficulty(ToyEnv(), Start(), a);
    SelfChain();
    SelfIds(AfterSelf().chain);
    NothingCollides(AfterSelf().chain);
  }
}
