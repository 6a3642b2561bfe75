/** The assumptions of the run theorems can be met: a payment that is mined and added. */
module Witness {
  import opened Prelude
  import opened Crypto
  import opened ProofOfWork
  import opened Merkle
  import opened Transactions
  import opened Ledgers
  import opened CoinSelection
  import opened Spending
  import opened Chains
  import opened Nodes
  import opened HonestRuns
  import opened Payments
  import opened Runs
  import opened ToyWorld

  /** The genesis owner pays one unit to somebody else and mines the block. */
  function Payment(choice: Choice): Step {
    Pay(OWNER, OTHER, 1, Payer(), choice, OWNER, 0, 0)
  }

  lemma SomeChoice() returns (choice: Choice)
    ensures PayOk(ToyEnv(), Start().ledger, Payment(choice))
  {
    var entries := SomeOrder(Start().ledger.live);
    var picked := SomeOrder(Group(Select(Start().ledger.live, entries, OWNER, 1).picks));
    choice := Choice(entries, picked, 0);
  }

  lemma StartInv(bodies: set<TxBody>)
    requires Body(CoinbaseAt(0, OWNER)) in bodies
    ensures Inv(ToyEnv(), bodies, Start())
  {
    StartIsGenesis();
    GenesisInv(ToyEnv(), bodies, OWNER, 0);
  }

  lemma OrderExists(choice: Choice)
    requires PayOk(ToyEnv(), Start().ledger, Payment(choice))
    ensures Order(ToyEnv(), Start(), Payment(choice)).Ok?
    ensures var b := Body(Order(ToyEnv(), Start(), Payment(choice)).value);
      |b.inputs| > 0 && b.inputs[0].txid.Some?
  {
    var n, s, bodies := Start(), Payment(choice), {Body(CoinbaseAt(0, OWNER))};
    WorldIsSound();
    StartInv(bodies);
    StartBalance();
    OrderSpec(ToyEnv(), bodies, n, s);
    var t := Order(ToyEnv(), n, s).value;
    PaymentInputs(ToyEnv(), n.ledger, OWNER, OWNER, Picked(ToyEnv(), n, s).picks, choice.picked, t);
    assert Body(t).inputs[0] == t.inputs[0].(signature := []);
  }

  lemma StartBalance()
    ensures Total(Start().ledger.live, Owner(OWNER)) == REWARD
  {
    var t := CoinbaseAt(0, OWNER);
    TotalInsert(map[], t.id, t.outputs, Owner(OWNER));
    SumOne(t.outputs[0], Owner(OWNER));
  }

  ghost function Bodies(choice: Choice): set<TxBody>
    requires PayOk(ToyEnv(), Start().ledger, Payment(choice)) && Order(ToyEnv(), Start(), Payment(choice)).Ok?
  {
    {Body(CoinbaseAt(0, OWNER)), Body(CoinbaseAt(1, OWNER)), Body(Order(ToyEnv(), Start(), Payment(choice)).value)}
  }

  lemma ThreeDiffer(env: Env, a: TxBody, b: TxBody, c: TxBody)
    requires env.txHash(a) == Tag(1, 115, 32) && env.txHash(b) == Tag(1, 49, 32) && env.txHash(c)[29] == 2
    ensures NoTxCollision(env, {a, b, c})
  {
    TagInjective(1, 115, 32, 1, 49, 32);
    assert Tag(1, 115, 32)[29] == 1 && Tag(1, 49, 32)[29] == 1;
  }

  lemma PaymentHash(b: TxBody)
    requires |b.inputs| > 0 && b.inputs[0].txid.Some?
    ensures ToyEnv().txHash(b)[29] == 2
  {
  }

  lemma BodiesDiffer(choice: Choice)
    requires PayOk(ToyEnv(), Start().ledger, Payment(choice)) && Order(ToyEnv(), Start(), Payment(choice)).Ok?
    ensures NoTxCollision(ToyEnv(), Bodies(choice))
  {
    OrderExists(choice);
    CoinbaseHash(0, OWNER);
    CoinbaseHash(1, OWNER);
    var b := Body(Order(ToyEnv(), Start(), Payment(choice)).value);
    PaymentHash(b);
    ThreeDiffer(ToyEnv(), Body(CoinbaseAt(0, OWNER)), Body(CoinbaseAt(1, OWNER)), b);
  }

  lemma StepIsHonest(choice: Choice)
    requires PayOk(ToyEnv(), Start().ledger, Payment(choice)) && Order(ToyEnv(), Start(), Payment(choice)).Ok?
    ensures Honest(ToyEnv(), Bodies(choice), Start(), Payment(choice)) && Inv(ToyEnv(), Bodies(choice), Start())
  {
    StartIsGenesis();
    StartInv(Bodies(choice));
    assert CoinbaseData(1) == BlockData(1);
  }

  /** Every signature is 32 bytes long and splits in the middle. */
  lemma SignaturesFit(choice: Choice)
    requires PayOk(ToyEnv(), Start().ledger, Payment(choice)) && Order(ToyEnv(), Start(), Payment(choice)).Ok?
    requires Inv(ToyEnv(), Bodies(choice), Start()) && AddressesDecode(ToyEnv()) && |Start().chain| == 1
    ensures SignaturesSplit(ToyEnv(), Bodies(choice), Start(), Payment(choice))
  {
    var n, s := Start(), Payment(choice);
    PickedSpec(ToyEnv(), Bodies(choice), n, s);
    PayInputsInRange(ToyEnv(), Bodies(choice), n, s);
    InputsCarryKey(n, s);
    var inputs, outputs := PayInputs(ToyEnv(), n, s), Order(ToyEnv(), n, s).value.outputs;
    forall j | 0 <= j < |inputs|
      ensures Verifiable(ToyEnv(), Payer(), inputs, outputs, n.ledger.recorded, choice.tape, j)
    {
      SignatureFits(inputs, outputs, n.ledger.recorded, choice.tape, j);
    }
  }

  lemma InputsCarryKey(n: Node, s: Step)
    requires s.Pay? && PayOk(ToyEnv(), n.ledger, s) && Singles(Group(Picked(ToyEnv(), n, s).picks))
    requires ToyEnv().decodeAddress(s.from) == Some(Owned(ToyEnv(), s.wallet))
    ensures forall j :: 0 <= j < |PayInputs(ToyEnv(), n, s)| ==> PayInputs(ToyEnv(), n, s)[j].pubKey == s.wallet.publicKey
  {
    SingleInputs(s.choice.picked, Group(Picked(ToyEnv(), n, s).picks), s.wallet.publicKey);
  }

  lemma SignatureFits(inputs: seq<TxInput>, outputs: seq<TxOutput>, prev: Prev, tape: nat, j: nat)
    requires j < |inputs| && InRange(inputs[j], prev) && inputs[j].pubKey == OWNER
    ensures Verifiable(ToyEnv(), Payer(), inputs, outputs, prev, tape, j)
  {
    PowLength(15);
  }

  lemma PaymentAdded(choice: Choice)
    requires PayOk(ToyEnv(), Start().ledger, Payment(choice)) && Order(ToyEnv(), Start(), Payment(choice)).Ok?
    ensures |Start().chain| == 1 && Exec(ToyEnv(), Start(), Payment(choice)).1.Added?
  {
    var n, s := Start(), Payment(choice);
    StartIsGenesis();
    WorldIsSound();
    BodiesDiffer(choice);
    StepIsHonest(choice);
    SignaturesFit(choice);
    BlockAccepted(ToyEnv(), Bodies(choice), n, s);
    var h := Template(ToyEnv(), n, StepTxs(ToyEnv(), n, s), 0);
    assert h.difficultyTarget == DEFAULT_TARGET_BITS;
    NeverExhausted(h);
  }

  /** IDs on the chain of a sound node are hashes. */
  lemma InvIdsAreHashes(env: Env, bodies: set<TxBody>, n: Node)
    requires Inv(env, bodies, n)
    ensures IdsAreHashes(n.chain)
  {
    forall k | 0 <= k < |n.chain| ensures AllHashes(Ids(n.chain[k].txs)) {
      forall j | 0 <= j < |n.chain[k].txs| ensures |n.chain[k].txs[j].id| == 32 {
        InAllTxs(n.chain, k, j);
        var i :| 0 <= i < |AllTxs(n.chain)| && AllTxs(n.chain)[i] == n.chain[k].txs[j];
        assert TxOk(env, bodies, |n.chain|, n.ledger, AllTxs(n.chain)[i]);
      }
    }
  }

  lemma {:induction false} InAllTxs(chain: Chain, k: nat, j: nat)
    requires k < |chain| && j < |chain[k].txs|
    ensures exists i :: 0 <= i < |AllTxs(chain)| && AllTxs(chain)[i] == chain[k].txs[j]
    decreases |chain|
  {
    var front := chain[..|chain| - 1];
    if k < |front| {
      InAllTxs(front, k, j);
      var i :| 0 <= i < |AllTxs(front)| && AllTxs(front)[i] == front[k].txs[j];
      assert AllTxs(chain)[i] == chain[k].txs[j];
    } else {
      assert AllTxs(chain)[|AllTxs(front)| + j] == chain[k].txs[j];
    }
  }

  /** There is an honest run with a payment that is added, in a world that meets every assumption the theorems
      about runs, tips and reloading make. */
  lemma AssumptionsCanBeMet() returns (choice: Choice, after: Node)
    ensures AddressesDecode(ToyEnv()) && SignerSound(ToyEnv(), Payer())
    ensures PayOk(ToyEnv(), Start().ledger, Payment(choice)) && Order(ToyEnv(), Start(), Payment(choice)).Ok?
    ensures NoTxCollision(ToyEnv(), Bodies(choice))
    ensures HonestRun(ToyEnv(), Bodies(choice), OWNER, 0, [Start(), after], [Payment(choice)])
    ensures |after.chain| == 2 && NoHeaderCollision(ToyEnv(), after.chain, after.chain) && NoZeroHash(after.chain)
  {
    choice := SomeChoice();
    OrderExists(choice);
    WorldIsSound();
    BodiesDiffer(choice);
    StepIsHonest(choice);
    StartIsGenesis();
    PaymentAdded(choice);
    after := Exec(ToyEnv(), Start(), Payment(choice)).0;
    OneStepRun(ToyEnv(), Bodies(choice), OWNER, 0, [Start(), after], [Payment(choice)]);
    AfterPayment(choice, after);
  }

  lemma AfterPayment(choice: Choice, after: Node)
    requires AddressesDecode(ToyEnv()) && PayOk(ToyEnv(), Start().ledger, Payment(choice))
    requires Order(ToyEnv(), Start(), Payment(choice)).Ok? && NoTxCollision(ToyEnv(), Bodies(choice)) && |Start().chain| == 1
    requires Honest(ToyEnv(), Bodies(choice), Start(), Payment(choice)) && Inv(ToyEnv(), Bodies(choice), Start())
    requires after == Exec(ToyEnv(), Start(), Payment(choice)).0 && Exec(ToyEnv(), Start(), Payment(choice)).1.Added?
    ensures |after.chain| == 2 && NoHeaderCollision(ToyEnv(), after.chain, after.chain) && NoZeroHash(after.chain)
  {
    ExecDifficulty(ToyEnv(), Start(), Payment(choice));
    StepKeepsInv(ToyEnv(), Bodies(choice), Start(), Payment(choice));
    SoundMeansDistinct(Bodies(choice), after);
  }

  lemma SoundMeansDistinct(bodies: set<TxBody>, n: Node)
    requires Inv(ToyEnv(), bodies, n) && |n.chain| <= 250
    ensures NoHeaderCollision(ToyEnv(), n.chain, n.chain) && NoZeroHash(n.chain)
  {
    InvIdsAreHashes(ToyEnv(), bodies, n);
    NothingCollides(n.chain);
  }
}
