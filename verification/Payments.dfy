/** What one honest step does: creating a payment, mining it, and the balances afterwards. */
module Payments {
  import opened Prelude
  import opened ByteStrings
  import opened Crypto
  import opened ProofOfWork
  import opened Transactions
  import opened Ledgers
  import opened CoinSelection
  import opened Spending
  import opened Chains
  import opened Difficulty
  import opened Nodes
  import opened Executions
  import opened HonestRuns

  /** ---------- Steps ---------- */

  /** The two kinds of step of a node used as intended. */
  datatype Step =
    | Mine(miner: Bytes, now: int, later: int)
    | Pay(from: Bytes, to: Bytes, amount: int, wallet: Wallet, choice: Choice, miner: Bytes, now: int, later: int)

  function Owned(env: Env, w: Wallet): Bytes {
    env.pubKeyHash(w.publicKey)
  }

  /** A payment request: a positive int64 amount, from the wallet's own address, to somebody else. */
  ghost predicate PayOk(env: Env, l: Ledger, s: Step)
    requires s.Pay?
  {
    && 0 < s.amount <= MAX_INT64
    && s.from == Address(env, s.wallet)
    && env.decodeAddress(s.to) != env.decodeAddress(s.from)
    && ChoiceFits(env, l, s.from, s.amount, s.choice)
  }

  ghost function Order(env: Env, n: Node, s: Step): Outcome<TxV>
    requires s.Pay? && PayOk(env, n.ledger, s)
  {
    Created(env, n.ledger, s.from, s.to, s.amount, s.wallet, s.choice)
  }

  ghost function Exec(env: Env, n: Node, s: Step): (Node, AddResult)
    requires |n.chain| > 0 && (s.Pay? ==> PayOk(env, n.ledger, s))
  {
    match s
    case Mine(miner, now, later) => AddBlock(env, n, [], miner, now, later)
    case Pay(_, _, _, _, _, miner, now, later) =>
      match Order(env, n, s)
      case Ok(t) => AddBlock(env, n, [t], miner, now, later)
      case Err => (n, Failed)
      case Panic => (n, Panicked)
  }

  /** The step is honest, the height is below the bound, and what it hashes is among `bodies`. */
  ghost predicate Honest(env: Env, bodies: set<TxBody>, n: Node, s: Step) {
    && 0 < |n.chain| <= MAX_HEIGHT
    && (env.decodeAddress(s.miner).Some? ==>
          Body(CoinbaseTx(env, env.decodeAddress(s.miner).value, BlockData(|n.chain|), REWARD)) in bodies)
    && (s.Pay? ==> PayOk(env, n.ledger, s) && (Order(env, n, s).Ok? ==> Body(Order(env, n, s).value) in bodies))
  }

  /** ---------- What CreateTransaction returns ---------- */

  ghost function Picked(env: Env, n: Node, s: Step): Selection
    requires s.Pay? && PayOk(env, n.ledger, s)
  {
    Select(n.ledger.live, s.choice.entries, Owned(env, s.wallet), s.amount)
  }

  lemma BalanceBound(env: Env, bodies: set<TxBody>, n: Node, who: Who)
    requires Inv(env, bodies, n) && |n.chain| <= MAX_HEIGHT
    ensures NonNegative(n.ledger.live)
    ensures 0 <= Total(n.ledger.live, who) <= REWARD * |n.chain| <= MAX_INT64
  {
    forall key, i | key in n.ledger.live && 0 <= i < |n.ledger.live[key]| ensures n.ledger.live[key][i].value >= 0 {
      assert EntryOk(n.ledger.live[key]);
    }
    TotalBounds(n.ledger.live, who);
  }

  /** GetBalance is exact, not wrapped. */
  lemma BalanceExact(env: Env, bodies: set<TxBody>, n: Node, who: Who)
    requires Inv(env, bodies, n) && |n.chain| <= MAX_HEIGHT
    ensures Wrap64(Total(n.ledger.live, who)) == Total(n.ledger.live, who)
  {
    BalanceBound(env, bodies, n, who);
  }

  /** The invariant makes every selection take at most one output per transaction. */
  lemma PicksOnePerTx(live: Entries, owner: Bytes, picks: seq<Outpoint>)
    requires LiveOk(live) && PicksOk(live, owner, picks) && Ascending(picks)
    ensures OnePerTx(picks)
  {
    forall i, j | 0 <= i < j < |picks| ensures picks[i].0 != picks[j].0 {
      assert PickOk(live, owner, picks[i]) && PickOk(live, owner, picks[j]);
      assert EntryOk(live[picks[i].0]);
    }
  }

  lemma PickedSpec(env: Env, bodies: set<TxBody>, n: Node, s: Step)
    requires AddressesDecode(env) && Inv(env, bodies, n) && |n.chain| <= MAX_HEIGHT
    requires s.Pay? && PayOk(env, n.ledger, s)
    ensures env.decodeAddress(s.from) == Some(Owned(env, s.wallet))
    ensures var sel := Picked(env, n, s);
      (sel.accumulated < s.amount <==> Total(n.ledger.live, Owner(Owned(env, s.wallet))) < s.amount) &&
      sel.accumulated <= MAX_INT64 &&
      SelectionOk(n.ledger.live, Owned(env, s.wallet), s.amount, sel) && OnePerTx(sel.picks) && Singles(Group(sel.picks))
  {
    var owner, sel := Owned(env, s.wallet), Picked(env, n, s);
    BalanceBound(env, bodies, n, Owner(owner));
    SelectionCorrect(n.ledger.live, s.choice.entries, owner, s.amount);
    PicksOnePerTx(n.ledger.live, owner, sel.picks);
    GroupIsSingles(sel.picks);
  }

  ghost function PayInputs(env: Env, n: Node, s: Step): seq<TxInput>
    requires s.Pay? && PayOk(env, n.ledger, s) && env.decodeAddress(s.from) == Some(Owned(env, s.wallet))
  {
    InputsFor(s.choice.picked, Group(Picked(env, n, s).picks), s.wallet.publicKey)
  }

  /** The inputs refer to live outputs, and the recorded transactions show the same outputs there:
      no index is out of range, and every lock is the payer's. */
  lemma PayInputsInRange(env: Env, bodies: set<TxBody>, n: Node, s: Step)
    requires AddressesDecode(env) && Inv(env, bodies, n) && |n.chain| <= MAX_HEIGHT
    requires s.Pay? && PayOk(env, n.ledger, s)
    ensures env.decodeAddress(s.from) == Some(Owned(env, s.wallet))
    ensures AllKnown(PayInputs(env, n, s), n.ledger.recorded)
    ensures forall j :: 0 <= j < |PayInputs(env, n, s)| ==>
      InRange(PayInputs(env, n, s)[j], n.ledger.recorded) &&
      LockOf(PayInputs(env, n, s)[j], n.ledger.recorded) == Owned(env, s.wallet)
  {
    PickedSpec(env, bodies, n, s);
    PickedInputsInRange(env, n, s);
  }

  lemma PickedInputsInRange(env: Env, n: Node, s: Step)
    requires s.Pay? && PayOk(env, n.ledger, s) && Aliased(n.ledger)
    requires SelectionOk(n.ledger.live, Owned(env, s.wallet), s.amount, Picked(env, n, s)) && OnePerTx(Picked(env, n, s).picks)
    requires Singles(Group(Picked(env, n, s).picks)) && env.decodeAddress(s.from) == Some(Owned(env, s.wallet))
    ensures AllKnown(PayInputs(env, n, s), n.ledger.recorded)
    ensures forall j :: 0 <= j < |PayInputs(env, n, s)| ==>
      InRange(PayInputs(env, n, s)[j], n.ledger.recorded) &&
      LockOf(PayInputs(env, n, s)[j], n.ledger.recorded) == Owned(env, s.wallet)
  {
    var picks := Picked(env, n, s).picks;
    SingleInputs(s.choice.picked, Group(picks), s.wallet.publicKey);
    forall j | 0 <= j < |PayInputs(env, n, s)|
      ensures InRange(PayInputs(env, n, s)[j], n.ledger.recorded) &&
        LockOf(PayInputs(env, n, s)[j], n.ledger.recorded) == Owned(env, s.wallet)
    {
      PickInRange(n.ledger, Owned(env, s.wallet), picks, s.choice.picked[j], s.wallet.publicKey);
    }
  }

  lemma PickInRange(l: Ledger, owner: Bytes, picks: seq<Outpoint>, id: Bytes, pubKey: Bytes)
    requires Aliased(l) && OnePerTx(picks) && PicksOk(l.live, owner, picks) && Singles(Group(picks)) && id in Group(picks)
    ensures var input := TxInput(Some(id), Group(picks)[id][0], [], pubKey);
      InRange(input, l.recorded) && LockOf(input, l.recorded) == owner
  {
    PicksAreSpendable(l.live, owner, picks);
    var k := SpentOf(Group(picks))[id];
    assert l.live[id][k].pubKeyHash == owner;
    assert l.live[id][k] == l.recorded[id][k];
  }

  lemma UnsignedInputs(order: seq<Bytes>, group: map<Bytes, seq<nat>>, pubKey: Bytes)
    requires Singles(group) && forall j :: 0 <= j < |order| ==> order[j] in group
    ensures Unsigned(InputsFor(order, group, pubKey)) == InputsFor(order, group, pubKey)
    ensures order != [] ==> !IsCoinbase(InputsFor(order, group, pubKey))
  {
    SingleInputs(order, group, pubKey);
  }

  lemma PicksNotEmpty(live: Entries, owner: Bytes, amount: int, sel: Selection)
    requires SelectionOk(live, owner, amount, sel) && sel.accumulated >= amount > 0
    ensures sel.picks != []
  {
  }

  /** CreateTransaction never panics, fails exactly when the balance is short or the recipient's address
      does not decode, and otherwise pays `amount` and returns the change. */
  lemma OrderSpec(env: Env, bodies: set<TxBody>, n: Node, s: Step)
    requires AddressesDecode(env) && Inv(env, bodies, n) && |n.chain| <= MAX_HEIGHT
    requires s.Pay? && PayOk(env, n.ledger, s)
    ensures env.decodeAddress(s.from) == Some(Owned(env, s.wallet))
    ensures !Order(env, n, s).Panic?
    ensures Order(env, n, s).Ok? <==>
      Total(n.ledger.live, Owner(Owned(env, s.wallet))) >= s.amount && env.decodeAddress(s.to).Some?
    ensures Order(env, n, s).Ok? ==>
      PaymentFrom(env, n.ledger, Owned(env, s.wallet), s.wallet.publicKey, Picked(env, n, s).picks, s.choice.picked,
        Order(env, n, s).value)
    ensures Order(env, n, s).Ok? ==>
      Order(env, n, s).value.outputs ==
        NewOutputs(env.decodeAddress(s.to).value, Owned(env, s.wallet), s.amount, Picked(env, n, s).accumulated)
  {
    PickedSpec(env, bodies, n, s);
    if Picked(env, n, s).accumulated >= s.amount && env.decodeAddress(s.to).Some? {
      OrderGoes(env, bodies, n, s);
    } else {
      OrderFails(env, n, s);
    }
  }

  lemma OrderFails(env: Env, n: Node, s: Step)
    requires s.Pay? && PayOk(env, n.ledger, s) && env.decodeAddress(s.from) == Some(Owned(env, s.wallet))
    requires Picked(env, n, s).accumulated < s.amount || env.decodeAddress(s.to).None?
    ensures Order(env, n, s).Err?
  {
  }

  lemma OrderGoes(env: Env, bodies: set<TxBody>, n: Node, s: Step)
    requires AddressesDecode(env) && Inv(env, bodies, n) && |n.chain| <= MAX_HEIGHT
    requires s.Pay? && PayOk(env, n.ledger, s)
    requires Picked(env, n, s).accumulated >= s.amount && env.decodeAddress(s.to).Some?
    ensures Order(env, n, s).Ok?
    ensures PaymentFrom(env, n.ledger, Owned(env, s.wallet), s.wallet.publicKey, Picked(env, n, s).picks, s.choice.picked,
        Order(env, n, s).value)
    ensures Order(env, n, s).value.outputs ==
        NewOutputs(env.decodeAddress(s.to).value, Owned(env, s.wallet), s.amount, Picked(env, n, s).accumulated)
  {
    PickedSpec(env, bodies, n, s);
    PicksNotEmpty(n.ledger.live, Owned(env, s.wallet), s.amount, Picked(env, n, s));
    PayInputsInRange(env, bodies, n, s);
    SignedOrder(env, n, s);
  }

  /** Signing the order succeeds and leaves its body alone. */
  lemma SignedOrder(env: Env, n: Node, s: Step)
    requires s.Pay? && PayOk(env, n.ledger, s) && env.decodeAddress(s.from) == Some(Owned(env, s.wallet))
    requires Picked(env, n, s).accumulated >= s.amount && env.decodeAddress(s.to).Some?
    requires Picked(env, n, s).picks != [] && OnePerTx(Picked(env, n, s).picks) && Singles(Group(Picked(env, n, s).picks))
    requires AllKnown(PayInputs(env, n, s), n.ledger.recorded)
    requires forall j :: 0 <= j < |PayInputs(env, n, s)| ==> InRange(PayInputs(env, n, s)[j], n.ledger.recorded)
    ensures Order(env, n, s).Ok?
    ensures Unsigned(Order(env, n, s).value.inputs) == PayInputs(env, n, s)
    ensures Order(env, n, s).value.id == env.txHash(Body(Order(env, n, s).value))
    ensures Order(env, n, s).value.outputs ==
      NewOutputs(env.decodeAddress(s.to).value, Owned(env, s.wallet), s.amount, Picked(env, n, s).accumulated)
  {
    var sel, w, inputs := Picked(env, n, s), s.wallet, PayInputs(env, n, s);
    var outputs := NewOutputs(env.decodeAddress(s.to).value, Owned(env, w), s.amount, sel.accumulated);
    OrderUnfolds(env, n, s, inputs, outputs);
    SomethingPicked(sel.picks, s.choice.picked);
    UnsignedInputs(s.choice.picked, Group(sel.picks), w.publicKey);
    UnsubmittedSpec(env, w, n.ledger.recorded, inputs, outputs, s.choice.tape);
  }

  lemma OrderUnfolds(env: Env, n: Node, s: Step, inputs: seq<TxInput>, outputs: seq<TxOutput>)
    requires s.Pay? && PayOk(env, n.ledger, s) && env.decodeAddress(s.from) == Some(Owned(env, s.wallet))
    requires Picked(env, n, s).accumulated >= s.amount && env.decodeAddress(s.to).Some?
    requires inputs == PayInputs(env, n, s)
    requires outputs == NewOutputs(env.decodeAddress(s.to).value, Owned(env, s.wallet), s.amount, Picked(env, n, s).accumulated)
    ensures Order(env, n, s) == Unsubmitted(env, s.wallet, n.ledger.recorded, inputs, outputs, s.choice.tape)
  {
  }

  lemma SomethingPicked(picks: seq<Outpoint>, order: seq<Bytes>)
    requires picks != [] && OnePerTx(picks) && Enumerates(order, Group(picks))
    ensures order != []
  {
    GroupSingle(picks, 0);
    assert picks[0].0 in order;
  }

  lemma UnsubmittedSpec(env: Env, w: Wallet, recorded: Prev, inputs: seq<TxInput>, outputs: seq<TxOutput>, tape: nat)
    requires Unsigned(inputs) == inputs && !IsCoinbase(inputs)
    requires AllKnown(inputs, recorded) && forall j :: 0 <= j < |inputs| ==> InRange(inputs[j], recorded)
    ensures Unsubmitted(env, w, recorded, inputs, outputs, tape).Ok?
    ensures var t := Unsubmitted(env, w, recorded, inputs, outputs, tape).value;
      Unsigned(t.inputs) == inputs && t.outputs == outputs && t.id == env.txHash(Body(t))
  {
    SignFromSpec(env, w, inputs, outputs, recorded, tape, 0);
    SigningKeepsBody(env, w, inputs, outputs, recorded, tape);
  }

  /** ---------- One step ---------- */

  lemma NewOutputsSpec(to: Bytes, from: Bytes, amount: int, accumulated: int, who: Who)
    requires to != from && 0 < amount <= accumulated <= MAX_INT64
    ensures EntryOk(NewOutputs(to, from, amount, accumulated))
    ensures Sum(NewOutputs(to, from, amount, accumulated), who) ==
      match who
      case Everyone => accumulated
      case Owner(h) => (if h == to then amount else 0) + (if h == from then accumulated - amount else 0)
  {
    var first, change := TxOutput(amount, to), TxOutput(accumulated - amount, from);
    SumOne(first, who);
    if accumulated > amount {
      assert [first, change][..1] == [first];
    } else {
      assert NewOutputs(to, from, amount, accumulated) == [first];
    }
  }

  lemma UpdateOne(l: Ledger, a: TxV)
    ensures UpdateAll(l, [a]) == Update(l, a)
  {
    assert [a][..0] == [];
  }

  lemma UpdateTwo(l: Ledger, a: TxV, b: TxV)
    requires Update(l, a).1
    ensures UpdateAll(l, [a, b]) == Update(Update(l, a).0, b)
  {
    UpdateOne(l, a);
    assert [a, b][..1] == [a];
  }

  /** Picks from entries that were there before the coinbase are the same picks after it. */
  lemma PaymentSurvivesAdd(env: Env, l: Ledger, id: Bytes, outputs: seq<TxOutput>,
                           owner: Bytes, pubKey: Bytes, picks: seq<Outpoint>, order: seq<Bytes>, t: TxV)
    requires PaymentFrom(env, l, owner, pubKey, picks, order, t) && id !in l.live
    ensures PaymentFrom(env, Add(l, id, outputs), owner, pubKey, picks, order, t)
    ensures PicksValue(Add(l, id, outputs).live, owner, picks) == PicksValue(l.live, owner, picks)
  {
    SamePicks(l.live, Add(l, id, outputs).live, owner, picks);
  }

  lemma {:induction false} SamePicks(live: Entries, live': Entries, owner: Bytes, picks: seq<Outpoint>)
    requires PicksOk(live, owner, picks)
    requires forall key :: key in live ==> key in live' && live'[key] == live[key]
    ensures PicksOk(live', owner, picks) && PicksValue(live', owner, picks) == PicksValue(live, owner, picks)
    decreases |picks|
  {
    forall i | 0 <= i < |picks| ensures PickOk(live', owner, picks[i]) {
      assert PickOk(live, owner, picks[i]);
    }
    if picks != [] {
      SamePicks(live, live', owner, picks[..|picks| - 1]);
    }
  }

  ghost function NewCoinbase(env: Env, n: Node, s: Step): TxV
    requires env.decodeAddress(s.miner).Some?
  {
    CoinbaseTx(env, env.decodeAddress(s.miner).value, BlockData(|n.chain|), REWARD)
  }

  /** The transactions of the block an honest step tries to add. */
  ghost function StepTxs(env: Env, n: Node, s: Step): seq<TxV>
    requires env.decodeAddress(s.miner).Some? && (s.Pay? ==> PayOk(env, n.ledger, s) && Order(env, n, s).Ok?)
  {
    if s.Mine? then [NewCoinbase(env, n, s)] else [NewCoinbase(env, n, s), Order(env, n, s).value]
  }

  /** Change of a balance by an honest step that adds its block. */
  ghost function Flow(env: Env, s: Step, who: Who): int
    requires env.decodeAddress(s.miner).Some? && (s.Pay? ==> env.decodeAddress(s.to).Some?)
  {
    match who
    case Everyone => REWARD
    case Owner(h) =>
      (if h == env.decodeAddress(s.miner).value then REWARD else 0) +
      (if s.Mine? then 0
       else (if h == env.decodeAddress(s.to).value then s.amount else 0) -
            (if h == Owned(env, s.wallet) then s.amount else 0))
  }

  lemma CoinbaseUpdates(env: Env, bodies: set<TxBody>, n: Node, s: Step, who: Who)
    requires NoTxCollision(env, bodies) && Inv(env, bodies, n) && Honest(env, bodies, n, s)
    requires env.decodeAddress(s.miner).Some?
    ensures var cb := NewCoinbase(env, n, s);
      cb.id !in n.ledger.recorded && Update(n.ledger, cb) == (Add(n.ledger, cb.id, cb.outputs), true) &&
      LedgerInv(env, bodies, |n.chain| + 1, AllTxs(n.chain) + [cb], Add(n.ledger, cb.id, cb.outputs)) &&
      Total(Add(n.ledger, cb.id, cb.outputs).live, who) ==
        Total(n.ledger.live, who) + Worth(TxOutput(REWARD, env.decodeAddress(s.miner).value), who)
  {
    var cb := NewCoinbase(env, n, s);
    CoinbaseKeepsInv(env, bodies, |n.chain|, AllTxs(n.chain), n.ledger, env.decodeAddress(s.miner).value);
    assert cb.id !in n.ledger.live;
    TotalInsert(n.ledger.live, cb.id, cb.outputs, who);
    SumOne(cb.outputs[0], who);
  }

  /** `l'` is what an honest step should turn the ledger of `n` into, as far as `who` can see. */
  ghost predicate StepResult(env: Env, bodies: set<TxBody>, n: Node, s: Step, who: Who, txs: seq<TxV>, l': Ledger)
    requires env.decodeAddress(s.miner).Some? && (s.Pay? ==> env.decodeAddress(s.to).Some?)
  {
    && LedgerInv(env, bodies, |n.chain| + 1, AllTxs(n.chain) + txs, l')
    && Total(l'.live, who) == Total(n.ledger.live, who) + Flow(env, s, who)
  }

  lemma MineUpdates(env: Env, bodies: set<TxBody>, n: Node, s: Step, who: Who)
    requires NoTxCollision(env, bodies) && Inv(env, bodies, n) && Honest(env, bodies, n, s)
    requires env.decodeAddress(s.miner).Some? && s.Mine?
    ensures UpdateAll(n.ledger, [NewCoinbase(env, n, s)]).1
    ensures StepResult(env, bodies, n, s, who, [NewCoinbase(env, n, s)], UpdateAll(n.ledger, [NewCoinbase(env, n, s)]).0)
  {
    var cb := NewCoinbase(env, n, s);
    CoinbaseUpdates(env, bodies, n, s, who);
    UpdateOne(n.ledger, cb);
    MineResult(env, bodies, n, s, who, cb, Add(n.ledger, cb.id, cb.outputs));
  }

  lemma MineResult(env: Env, bodies: set<TxBody>, n: Node, s: Step, who: Who, cb: TxV, l': Ledger)
    requires env.decodeAddress(s.miner).Some? && s.Mine?
    requires LedgerInv(env, bodies, |n.chain| + 1, AllTxs(n.chain) + [cb], l')
    requires Total(l'.live, who) == Total(n.ledger.live, who) + Worth(TxOutput(REWARD, env.decodeAddress(s.miner).value), who)
    ensures StepResult(env, bodies, n, s, who, [cb], l')
  {
  }

  lemma PaymentUpdates(env: Env, bodies: set<TxBody>, n: Node, s: Step, who: Who)
    requires AddressesDecode(env) && NoTxCollision(env, bodies) && Inv(env, bodies, n) && Honest(env, bodies, n, s)
    requires env.decodeAddress(s.miner).Some? && s.Pay? && Order(env, n, s).Ok?
    ensures env.decodeAddress(s.to).Some?
    ensures UpdateAll(n.ledger, [NewCoinbase(env, n, s), Order(env, n, s).value]).1
    ensures StepResult(env, bodies, n, s, who, [NewCoinbase(env, n, s), Order(env, n, s).value],
      UpdateAll(n.ledger, [NewCoinbase(env, n, s), Order(env, n, s).value]).0)
  {
    var cb, t := NewCoinbase(env, n, s), Order(env, n, s).value;
    CoinbaseUpdates(env, bodies, n, s, who);
    PayUpdates(env, bodies, n, s, Add(n.ledger, cb.id, cb.outputs), who);
    UpdateTwo(n.ledger, cb, t);
    AppendTwo(AllTxs(n.chain), cb, t);
    PaymentResult(env, bodies, n, s, who, cb, t, Add(n.ledger, cb.id, cb.outputs), UpdateAll(n.ledger, [cb, t]).0);
  }

  lemma PaymentResult(env: Env, bodies: set<TxBody>, n: Node, s: Step, who: Who, cb: TxV, t: TxV, l1: Ledger, l2: Ledger)
    requires env.decodeAddress(s.miner).Some? && s.Pay? && env.decodeAddress(s.to).Some?
    requires LedgerInv(env, bodies, |n.chain| + 1, AllTxs(n.chain) + [cb, t], l2)
    requires Total(l1.live, who) == Total(n.ledger.live, who) + Worth(TxOutput(REWARD, env.decodeAddress(s.miner).value), who)
    requires Total(l2.live, who) == Total(l1.live, who) + Moved(env, s, who)
    ensures StepResult(env, bodies, n, s, who, [cb, t], l2)
  {
  }

  /** Change of a balance by the payment alone. */
  ghost function Moved(env: Env, s: Step, who: Who): int
    requires s.Pay? && env.decodeAddress(s.to).Some?
  {
    match who
    case Everyone => 0
    case Owner(h) => (if h == env.decodeAddress(s.to).value then s.amount else 0) -
                     (if h == Owned(env, s.wallet) then s.amount else 0)
  }

  /** Applying the transactions of an honest step succeeds, keeps the ledger invariant, and moves
      exactly the money the step names. */
  lemma StepUpdates(env: Env, bodies: set<TxBody>, n: Node, s: Step, who: Who)
    requires AddressesDecode(env) && NoTxCollision(env, bodies) && Inv(env, bodies, n) && Honest(env, bodies, n, s)
    requires env.decodeAddress(s.miner).Some? && (s.Pay? ==> Order(env, n, s).Ok?)
    ensures s.Pay? ==> env.decodeAddress(s.to).Some?
    ensures UpdateAll(n.ledger, StepTxs(env, n, s)).1
    ensures StepResult(env, bodies, n, s, who, StepTxs(env, n, s), UpdateAll(n.ledger, StepTxs(env, n, s)).0)
  {
    if s.Mine? {
      MineUpdates(env, bodies, n, s, who);
    } else {
      PaymentUpdates(env, bodies, n, s, who);
    }
  }

  lemma AppendTwo(txs: seq<TxV>, a: TxV, b: TxV)
    ensures txs + [a] + [b] == txs + [a, b]
  {
  }

  lemma PayUpdates(env: Env, bodies: set<TxBody>, n: Node, s: Step, l1: Ledger, who: Who)
    requires AddressesDecode(env) && NoTxCollision(env, bodies) && Inv(env, bodies, n) && Honest(env, bodies, n, s)
    requires env.decodeAddress(s.miner).Some? && s.Pay? && Order(env, n, s).Ok?
    requires var cb := NewCoinbase(env, n, s);
      l1 == Add(n.ledger, cb.id, cb.outputs) && cb.id !in n.ledger.recorded &&
      LedgerInv(env, bodies, |n.chain| + 1, AllTxs(n.chain) + [cb], l1)
    ensures env.decodeAddress(s.to).Some?
    ensures var t := Order(env, n, s).value;
      Update(l1, t).1 &&
      LedgerInv(env, bodies, |n.chain| + 1, AllTxs(n.chain) + [NewCoinbase(env, n, s)] + [t], Update(l1, t).0) &&
      Total(Update(l1, t).0.live, who) == Total(l1.live, who) + Moved(env, s, who)
  {
    OrderSpec(env, bodies, n, s);
    PickedSpec(env, bodies, n, s);
    var t, sel, cb := Order(env, n, s).value, Picked(env, n, s), NewCoinbase(env, n, s);
    var owner, pubKey, order := Owned(env, s.wallet), s.wallet.publicKey, s.choice.picked;
    NewOutputsSpec(env.decodeAddress(s.to).value, owner, s.amount, sel.accumulated, who);
    assert cb.id !in n.ledger.live;
    PaymentSurvivesAdd(env, n.ledger, cb.id, cb.outputs, owner, pubKey, sel.picks, order, t);
    PaymentKeepsInv(env, bodies, |n.chain| + 1, AllTxs(n.chain) + [cb], l1, owner, pubKey, sel.picks, order, t);
    PaymentMoves(env, l1, owner, pubKey, sel.picks, order, t, who);
  }

  /** The IDs of a step's transactions have not been used on the chain, nor twice in the block. */
  lemma StepIsFresh(env: Env, bodies: set<TxBody>, n: Node, s: Step)
    requires AddressesDecode(env) && NoTxCollision(env, bodies) && Inv(env, bodies, n) && Honest(env, bodies, n, s)
    requires env.decodeAddress(s.miner).Some? && (s.Pay? ==> Order(env, n, s).Ok?)
    ensures FreshTxs(n.ledger.recorded.Keys, StepTxs(env, n, s))
  {
    StepUpdates(env, bodies, n, s, Everyone);
    RecordsDiffer(AllTxs(n.chain), StepTxs(env, n, s), n.ledger.recorded, UpdateAll(n.ledger, StepTxs(env, n, s)).0.recorded);
  }

  lemma RecordsDiffer(earlier: seq<TxV>, txs: seq<TxV>, before: map<Bytes, seq<TxOutput>>, after: map<Bytes, seq<TxOutput>>)
    requires RecordsOk(earlier, before) && RecordsOk(earlier + txs, after)
    ensures FreshTxs(before.Keys, txs)
  {
    var all := earlier + txs;
    forall j | 0 <= j < |txs| ensures txs[j].id !in before {
      assert all[|earlier| + j] == txs[j];
      forall i | 0 <= i < |earlier| ensures earlier[i].id != txs[j].id {
        assert all[i] == earlier[i];
      }
    }
    forall i, j | 0 <= i < j < |txs| ensures txs[i].id != txs[j].id {
      assert all[|earlier| + i] == txs[i] && all[|earlier| + j] == txs[j];
    }
  }

  /** The verification of the one transaction of a payment block. */
  lemma VerifyOne(env: Env, recorded: Prev, t: TxV)
    ensures VerifyTxs(env, recorded, [t]) == Verified(env, t.inputs, t.outputs, recorded)
  {
    assert [t][1..] == [];
  }

  /** When a step gets as far as building its block, the block holds the step's transactions. */
  lemma ExecBuilds(env: Env, n: Node, s: Step)
    requires |n.chain| > 0 && (s.Pay? ==> PayOk(env, n.ledger, s))
    ensures Exec(env, n, s) == (n, Failed) || Exec(env, n, s) == (n, Panicked) ||
      (env.decodeAddress(s.miner).Some? && (s.Pay? ==> Order(env, n, s).Ok?) &&
        Exec(env, n, s) == Extended(env, n, StepTxs(env, n, s), s.now, s.later))
  {
    if env.decodeAddress(s.miner).Some? && (s.Pay? ==> Order(env, n, s).Ok?) {
      if s.Mine? {
        assert [NewCoinbase(env, n, s)] + [] == StepTxs(env, n, s);
      } else {
        assert [NewCoinbase(env, n, s)] + [Order(env, n, s).value] == StepTxs(env, n, s);
      }
    }
  }

  /** The call of AddBlock that the step makes, if any. */
  ghost function ActOf(env: Env, n: Node, s: Step): Act
    requires s.Pay? ==> PayOk(env, n.ledger, s)
  {
    match s
    case Mine(miner, now, later) => Submit([], miner, now, later)
    case Pay(_, _, _, _, _, miner, now, later) =>
      match Order(env, n, s)
      case Ok(t) => Submit([t], miner, now, later)
      case _ => Idle
  }

  lemma ExecIsAct(env: Env, n: Node, s: Step)
    requires |n.chain| > 0 && (s.Pay? ==> PayOk(env, n.ledger, s))
    ensures Exec(env, n, s).0 == Done(env, n, ActOf(env, n, s)).0
    ensures Exec(env, n, s).1.Added? <==> Done(env, n, ActOf(env, n, s)).1.Added?
    ensures Exec(env, n, s).1.Added? ==> Exec(env, n, s).1 == Done(env, n, ActOf(env, n, s)).1 && ActOf(env, n, s).now == s.now
  {
  }

  /** The kept difficulty moves with every attempt, whether or not its block is added; a block that is added carries it. */
  lemma ExecDifficulty(env: Env, n: Node, s: Step)
    requires |n.chain| > 0 && (s.Pay? ==> PayOk(env, n.ledger, s))
    ensures var (n', r) := Exec(env, n, s);
      n'.bits == (if Attempts(env, n, ActOf(env, n, s)) then Adjusted(n.bits, Times(n.chain)) else n.bits) &&
      (if r.Added? then n'.chain == n.chain + [r.block] &&
         r.block.header.difficultyTarget == n'.bits && r.block.header.timestamp == s.now
       else n'.chain == n.chain)
  {
    ExecIsAct(env, n, s);
    ActDifficulty(env, n, ActOf(env, n, s));
  }

  /** An honest step that does not add its block leaves chain and ledger as they were. */
  lemma FailedStepKeepsLedger(env: Env, bodies: set<TxBody>, n: Node, s: Step)
    requires AddressesDecode(env) && NoTxCollision(env, bodies) && Inv(env, bodies, n) && Honest(env, bodies, n, s)
    requires !Exec(env, n, s).1.Added?
    ensures Exec(env, n, s).0.chain == n.chain && Exec(env, n, s).0.ledger == n.ledger
  {
    ExecBuilds(env, n, s);
    if Exec(env, n, s) != (n, Failed) && Exec(env, n, s) != (n, Panicked) {
      StepUpdates(env, bodies, n, s, Everyone);
    }
  }

  /** What an honest step that adds its block does. */
  lemma AddedStep(env: Env, bodies: set<TxBody>, n: Node, s: Step, who: Who)
    requires AddressesDecode(env) && NoTxCollision(env, bodies) && Inv(env, bodies, n) && Honest(env, bodies, n, s)
    requires Exec(env, n, s).1.Added?
    ensures env.decodeAddress(s.miner).Some? && (s.Pay? ==> Order(env, n, s).Ok? && env.decodeAddress(s.to).Some?)
    ensures Exec(env, n, s).0.chain == n.chain + [Exec(env, n, s).1.block]
    ensures Exec(env, n, s).1.block.txs == StepTxs(env, n, s)
    ensures UpdateAll(n.ledger, StepTxs(env, n, s)) == (Exec(env, n, s).0.ledger, true)
    ensures StepResult(env, bodies, n, s, who, StepTxs(env, n, s), Exec(env, n, s).0.ledger)
  {
    AddedStepBuilds(env, n, s);
    StepUpdates(env, bodies, n, s, who);
  }

  lemma AddedStepBuilds(env: Env, n: Node, s: Step)
    requires |n.chain| > 0 && (s.Pay? ==> PayOk(env, n.ledger, s)) && Exec(env, n, s).1.Added?
    ensures env.decodeAddress(s.miner).Some? && (s.Pay? ==> Order(env, n, s).Ok?)
    ensures Exec(env, n, s).0.chain == n.chain + [Exec(env, n, s).1.block]
    ensures Exec(env, n, s).1.block.txs == StepTxs(env, n, s)
    ensures UpdateAll(n.ledger, StepTxs(env, n, s)) == (Exec(env, n, s).0.ledger, true)
  {
    ExecBuilds(env, n, s);
  }

  lemma AddedStepReplays(env: Env, bodies: set<TxBody>, n: Node, s: Step)
    requires AddressesDecode(env) && NoTxCollision(env, bodies) && Inv(env, bodies, n) && Honest(env, bodies, n, s)
    requires Exec(env, n, s).1.Added?
    ensures env.decodeAddress(s.miner).Some? && (s.Pay? ==> Order(env, n, s).Ok?)
    ensures Exec(env, n, s).0.ledger == Replay(EMPTY, AllTxs(Exec(env, n, s).0.chain))
    ensures AllTxs(Exec(env, n, s).0.chain) == AllTxs(n.chain) + StepTxs(env, n, s)
  {
    var b := Exec(env, n, s).1.block;
    AddedStep(env, bodies, n, s, Everyone);
    AllTxsAppend(n.chain, b);
    ReplayConcat(EMPTY, AllTxs(n.chain), b.txs);
    ReplayIsUpdateAll(n.ledger, b.txs);
  }

  lemma AddedStepLedger(env: Env, bodies: set<TxBody>, n: Node, s: Step)
    requires AddressesDecode(env) && NoTxCollision(env, bodies) && Inv(env, bodies, n) && Honest(env, bodies, n, s)
    requires Exec(env, n, s).1.Added?
    ensures var n' := Exec(env, n, s).0;
      LedgerInv(env, bodies, |n'.chain|, AllTxs(n'.chain), n'.ledger) && Total(n'.ledger.live, Everyone) == REWARD * |n'.chain|
  {
    AddedStep(env, bodies, n, s, Everyone);
    AddedStepReplays(env, bodies, n, s);
  }

  /** Every honest step keeps the invariant, whether or not its block is added. */
  lemma StepKeepsInv(env: Env, bodies: set<TxBody>, n: Node, s: Step)
    requires AddressesDecode(env) && NoTxCollision(env, bodies) && Inv(env, bodies, n) && Honest(env, bodies, n, s)
    ensures Inv(env, bodies, Exec(env, n, s).0)
  {
    if Exec(env, n, s).1.Added? {
      AddedStepLedger(env, bodies, n, s);
      AddedStepReplays(env, bodies, n, s);
      ExecIsChainStep(env, n, s);
      StepKeepsChainOk(env, n.chain, Exec(env, n, s).0.chain);
    } else {
      FailedStepKeepsLedger(env, bodies, n, s);
    }
  }

  lemma ExecIsChainStep(env: Env, n: Node, s: Step)
    requires |n.chain| > 0 && (s.Pay? ==> PayOk(env, n.ledger, s))
    ensures ChainStep(env, n.chain, Exec(env, n, s).0.chain)
  {
    match s
    case Mine(miner, now, later) => AddBlockIsStep(env, n, [], miner, now, later);
    case Pay(_, _, _, _, _, miner, now, later) =>
      if Order(env, n, s).Ok? {
        AddBlockIsStep(env, n, [Order(env, n, s).value], miner, now, later);
      }
  }

  /** ---------- Acceptance ---------- */

  /** Every signature of the order is one the verifier can split. */
  ghost predicate SignaturesSplit(env: Env, bodies: set<TxBody>, n: Node, s: Step)
    requires AddressesDecode(env) && Inv(env, bodies, n) && |n.chain| <= MAX_HEIGHT
    requires s.Pay? && PayOk(env, n.ledger, s) && Order(env, n, s).Ok?
  {
    PayInputsInRange(env, bodies, n, s);
    forall j :: 0 <= j < |PayInputs(env, n, s)| ==>
      Verifiable(env, s.wallet, PayInputs(env, n, s), Order(env, n, s).value.outputs, n.ledger.recorded, s.choice.tape, j)
  }

  /** A transaction that CreateTransaction returns passes the next AddBlock's signature check. */
  lemma OrderVerifies(env: Env, bodies: set<TxBody>, n: Node, s: Step)
    requires AddressesDecode(env) && Inv(env, bodies, n) && |n.chain| <= MAX_HEIGHT
    requires s.Pay? && PayOk(env, n.ledger, s) && Order(env, n, s).Ok?
    requires SignerSound(env, s.wallet) && SignaturesSplit(env, bodies, n, s)
    ensures VerifyTxs(env, n.ledger.recorded, [Order(env, n, s).value]) == Ok(true)
  {
    OrderSpec(env, bodies, n, s);
    var t, inputs := Order(env, n, s).value, PayInputs(env, n, s);
    PayInputsInRange(env, bodies, n, s);
    PaymentInputs(env, n.ledger, Owned(env, s.wallet), s.wallet.publicKey, Picked(env, n, s).picks, s.choice.picked, t);
    UnsignedInputs(s.choice.picked, Group(Picked(env, n, s).picks), s.wallet.publicKey);
    SignVerifyRoundTrip(env, s.wallet, inputs, t.outputs, n.ledger.recorded, s.choice.tape);
    VerifyOne(env, n.ledger.recorded, t);
  }

  /** The block of an honest step is added exactly when the nonce search succeeds. */
  lemma BlockAccepted(env: Env, bodies: set<TxBody>, n: Node, s: Step)
    requires AddressesDecode(env) && NoTxCollision(env, bodies) && Inv(env, bodies, n) && Honest(env, bodies, n, s)
    requires env.decodeAddress(s.miner).Some? && s.now <= s.later + MAX_FUTURE
    requires s.Pay? ==> Order(env, n, s).Ok? && SignerSound(env, s.wallet) && SignaturesSplit(env, bodies, n, s)
    ensures Exec(env, n, s).1.Added? <==> !Exhausted(env, Template(env, n, StepTxs(env, n, s), s.now))
  {
    StepTxsShape(env, bodies, n, s);
    StepUpdates(env, bodies, n, s, Everyone);
    if s.Pay? {
      OrderVerifies(env, bodies, n, s);
    }
    ExecExtends(env, n, s);
    ExtendedAdds(env, n, StepTxs(env, n, s), s.now, s.later);
  }

  lemma ExtendedAdds(env: Env, n: Node, txs: seq<TxV>, now: int, later: int)
    requires |n.chain| > 0 && UpdateAll(n.ledger, txs).1 && CoinbaseFirst(txs) && now <= later + MAX_FUTURE
    ensures Extended(env, n, txs, now, later).1.Added? <==> !Exhausted(env, Template(env, n, txs, now))
  {
    MinedBlockAccepted(env, n, txs, now, later);
  }

  lemma ExecExtends(env: Env, n: Node, s: Step)
    requires |n.chain| > 0 && env.decodeAddress(s.miner).Some?
    requires s.Pay? ==> PayOk(env, n.ledger, s) && Order(env, n, s).Ok?
    requires s.Pay? ==> VerifyTxs(env, n.ledger.recorded, [Order(env, n, s).value]) == Ok(true)
    ensures Exec(env, n, s) == Extended(env, n, StepTxs(env, n, s), s.now, s.later)
  {
    if s.Pay? {
      assert [NewCoinbase(env, n, s)] + [Order(env, n, s).value] == StepTxs(env, n, s);
    } else {
      assert [NewCoinbase(env, n, s)] + [] == StepTxs(env, n, s);
    }
  }

  lemma StepTxsShape(env: Env, bodies: set<TxBody>, n: Node, s: Step)
    requires AddressesDecode(env) && Inv(env, bodies, n) && |n.chain| <= MAX_HEIGHT
    requires env.decodeAddress(s.miner).Some? && (s.Pay? ==> PayOk(env, n.ledger, s) && Order(env, n, s).Ok?)
    ensures CoinbaseFirst(StepTxs(env, n, s))
  {
    if s.Pay? {
      OrderSpends(env, bodies, n, s);
    }
  }

  lemma OrderSpends(env: Env, bodies: set<TxBody>, n: Node, s: Step)
    requires AddressesDecode(env) && Inv(env, bodies, n) && |n.chain| <= MAX_HEIGHT
    requires s.Pay? && PayOk(env, n.ledger, s) && Order(env, n, s).Ok?
    ensures !IsCoinbase(Order(env, n, s).value.inputs)
  {
    OrderSpec(env, bodies, n, s);
    PaymentInputs(env, n.ledger, Owned(env, s.wallet), s.wallet.publicKey, Picked(env, n, s).picks, s.choice.picked,
      Order(env, n, s).value);
  }

  /** ---------- The payment theorem ---------- */

  /** What GetBalance reports for a key hash. */
  ghost function Balance(n: Node, h: Bytes): int {
    Wrap64(Total(n.ledger.live, Owner(h)))
  }

  /** A payment whose block is added moves `amount` from payer to recipient and mints the reward for
      the miner, the three adding up where roles coincide; no other balance changes. */
  lemma PaymentTheorem(env: Env, bodies: set<TxBody>, n: Node, s: Step, h: Bytes)
    requires AddressesDecode(env) && NoTxCollision(env, bodies) && Inv(env, bodies, n) && Honest(env, bodies, n, s)
    requires s.Pay? && Exec(env, n, s).1.Added? && |n.chain| < MAX_HEIGHT
    ensures env.decodeAddress(s.miner).Some? && env.decodeAddress(s.from).Some? && env.decodeAddress(s.to).Some?
    ensures Balance(Exec(env, n, s).0, h) == Balance(n, h)
      - (if h == env.decodeAddress(s.from).value then s.amount else 0)
      + (if h == env.decodeAddress(s.to).value then s.amount else 0)
      + (if h == env.decodeAddress(s.miner).value then REWARD else 0)
  {
    OrderSpec(env, bodies, n, s);
    AddedStep(env, bodies, n, s, Owner(h));
    StepKeepsInv(env, bodies, n, s);
    BalanceExact(env, bodies, n, Owner(h));
    BalanceExact(env, bodies, Exec(env, n, s).0, Owner(h));
  }
}
