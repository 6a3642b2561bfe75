/** Chain adoption between nodes: what downloading from a peer does to our chain. */
module Sync {
  import opened Prelude
  import opened ByteStrings
  import opened Crypto
  import opened Ledgers
  import opened Chains
  import opened Nodes

  predicate HasHash(chain: Chain, hash: Bytes) {
    exists i :: 0 <= i < |chain| && chain[i].hash == hash
  }

  /** processReceivedBlock, as far as the chain is concerned. */
  function Received(env: Env, chain: Chain, b: BlockV, now: int): Chain {
    if HasHash(chain, b.hash) then chain
    else if BlockFault(env, chain, b, now) != None then chain
    else chain + [b]
  }

  /** ... and with the UTXO set: what fails to update is ignored, and the difficulty stays. */
  function ReceivedNode(env: Env, n: Node, b: BlockV, now: int): Node {
    if HasHash(n.chain, b.hash) || BlockFault(env, n.chain, b, now) != None then n
    else Node(n.chain + [b], n.bits, Replay(n.ledger, b.txs))
  }

  function ReceivedNodes(env: Env, n: Node, blocks: seq<BlockV>, clock: seq<int>): Node
    requires |clock| == |blocks|
    decreases |blocks|
  {
    if blocks == [] then n
    else ReceivedNodes(env, ReceivedNode(env, n, blocks[0], clock[0]), blocks[1..], clock[1..])
  }

  /** The received blocks are processed in order; `clock` gives our time at each. */
  function ReceivedAll(env: Env, chain: Chain, blocks: seq<BlockV>, clock: seq<int>): Chain
    requires |clock| == |blocks|
    decreases |blocks|
  {
    if blocks == [] then chain
    else ReceivedAll(env, Received(env, chain, blocks[0], clock[0]), blocks[1..], clock[1..])
  }

  /** Ask a higher peer for its blocks from our height on. */
  function Downloaded(env: Env, ours: Chain, peer: Chain, clock: seq<int>): Chain
    requires |peer| > |ours| ==> |clock| == |peer| - |ours|
  {
    if |peer| > |ours| then ReceivedAll(env, ours, peer[|ours|..], clock) else ours
  }

  lemma ReceivedIsStep(env: Env, chain: Chain, b: BlockV, now: int)
    ensures ChainStep(env, chain, Received(env, chain, b, now))
  {
  }

  /** The blocks we ask for are not dated too far ahead of our clock. */
  predicate Timely(blocks: seq<BlockV>, clock: seq<int>)
    requires |clock| == |blocks|
  {
    forall i :: 0 <= i < |blocks| ==> blocks[i].header.timestamp <= clock[i] + MAX_FUTURE
  }

  /** Nothing hashed in either chain collides, and no block hashes to zero. */
  predicate HashesBehave(env: Env, ours: Chain, peer: Chain) {
    NoHeaderCollision(env, ours, peer) && NoHeaderCollision(env, peer, peer) && NoZeroHash(ours) && NoZeroHash(peer)
  }

  /** Block k of the peer is new to a chain that is ours up to our height and the peer's from there to k. */
  lemma PeerBlockIsNew(env: Env, ours: Chain, peer: Chain, k: nat)
    requires ChainOk(env, ours) && ChainOk(env, peer) && HashesBehave(env, ours, peer)
    requires |ours| <= k < |peer|
    ensures !HasHash(ours + peer[|ours|..k], peer[k].hash)
  {
    var chain := ours + peer[|ours|..k];
    forall i | 0 <= i < |chain| ensures chain[i].hash != peer[k].hash {
      if i < |ours| {
        OldBlockDiffers(env, ours, peer, i, k);
      } else if peer[i].hash == peer[k].hash {
        HashesDistinct(env, peer, i, k);
      }
    }
  }

  lemma OldBlockDiffers(env: Env, ours: Chain, peer: Chain, i: nat, k: nat)
    requires ChainOk(env, ours) && ChainOk(env, peer) && HashesBehave(env, ours, peer)
    requires i < |ours| <= k < |peer|
    ensures ours[i].hash != peer[k].hash
  {
    if ours[i].hash == peer[k].hash {
      EqualHashesLineUp(env, ours, peer, i, k);
    }
  }

  lemma AdoptBlock(env: Env, ours: Chain, peer: Chain, k: nat, now: int)
    requires ChainOk(env, ours) && ChainOk(env, peer) && HashesBehave(env, ours, peer)
    requires |ours| <= k < |peer| && peer[k].header.timestamp <= now + MAX_FUTURE
    requires peer[|ours| - 1].hash == ours[|ours| - 1].hash
    ensures Received(env, ours + peer[|ours|..k], peer[k], now) == ours + peer[|ours|..k + 1]
  {
    var chain := ours + peer[|ours|..k];
    PeerBlockIsNew(env, ours, peer, k);
    OneMoreBlock(ours, peer, k);
    assert Follows(env, peer[k - 1], peer[k]);
    ValidationMeans(env, chain, peer[k], now);
  }

  lemma OneMoreBlock(ours: Chain, peer: Chain, k: nat)
    requires 0 < |ours| <= k < |peer| && peer[|ours| - 1].hash == ours[|ours| - 1].hash
    ensures var chain := ours + peer[|ours|..k];
      chain[|chain| - 1].hash == peer[k - 1].hash && chain + [peer[k]] == ours + peer[|ours|..k + 1]
  {
  }

  predicate EachRejected(env: Env, ours: Chain, blocks: seq<BlockV>, clock: seq<int>)
    requires |clock| == |blocks|
  {
    forall k :: 0 <= k < |blocks| ==> Received(env, ours, blocks[k], clock[k]) == ours
  }

  lemma {:induction false} RejectAll(env: Env, ours: Chain, blocks: seq<BlockV>, clock: seq<int>, k: nat)
    requires |clock| == |blocks| && k <= |blocks| && EachRejected(env, ours, blocks, clock)
    ensures ReceivedAll(env, ours, blocks[k..], clock[k..]) == ours
    decreases |blocks| - k
  {
    if k < |blocks| {
      assert blocks[k..][0] == blocks[k] && clock[k..][0] == clock[k];
      assert blocks[k..][1..] == blocks[k + 1..] && clock[k..][1..] == clock[k + 1..];
      RejectAll(env, ours, blocks, clock, k + 1);
    }
  }

  /** A block of a peer that forked below our tip does not fit on it. */
  lemma ForkedBlockRejected(env: Env, ours: Chain, peer: Chain, k: nat, now: int)
    requires ChainOk(env, ours) && ChainOk(env, peer) && HashesBehave(env, ours, peer)
    requires |ours| <= k < |peer| && peer[|ours| - 1].hash != ours[|ours| - 1].hash
    ensures Received(env, ours, peer[k], now) == ours
  {
    assert Follows(env, peer[k - 1], peer[k]);
    if peer[k - 1].hash == ours[|ours| - 1].hash {
      PrefixOk(env, peer, k);
      PrefixesDoNotCollide(env, ours, peer, |ours|, k);
      assert ours[..|ours|] == ours;
      TipCommits(env, ours, peer[..k]);
    }
  }

  lemma AdoptNth(env: Env, ours: Chain, peer: Chain, k: nat, now: int)
    requires ChainOk(env, ours) && ChainOk(env, peer) && HashesBehave(env, ours, peer)
    requires |ours| + k < |peer| && peer[|ours| + k].header.timestamp <= now + MAX_FUTURE
    requires peer[|ours| - 1].hash == ours[|ours| - 1].hash
    ensures Received(env, ours + peer[|ours|..][..k], peer[|ours|..][k], now) == ours + peer[|ours|..][..k + 1]
  {
    var h := |ours|;
    AdoptBlock(env, ours, peer, h + k, now);
    SliceOfSlice(peer, h, k);
    SliceOfSlice(peer, h, k + 1);
  }

  lemma SliceOfSlice<T>(s: seq<T>, h: nat, k: nat)
    requires h + k <= |s|
    ensures s[h..][..k] == s[h..h + k]
  {
  }

  lemma PeerBlocksRejected(env: Env, ours: Chain, peer: Chain, clock: seq<int>)
    requires ChainOk(env, ours) && ChainOk(env, peer) && HashesBehave(env, ours, peer)
    requires |peer| > |ours| && |clock| == |peer| - |ours|
    requires peer[|ours| - 1].hash != ours[|ours| - 1].hash
    ensures EachRejected(env, ours, peer[|ours|..], clock)
  {
    var blocks := peer[|ours|..];
    forall k | 0 <= k < |blocks| ensures Received(env, ours, blocks[k], clock[k]) == ours {
      ForkedBlockRejected(env, ours, peer, |ours| + k, clock[k]);
    }
  }

  /** How many of the blocks come before the first that is dated too far ahead. */
  function TimelyPrefix(blocks: seq<BlockV>, clock: seq<int>): (m: nat)
    requires |clock| == |blocks|
    ensures m <= |blocks|
  {
    if blocks == [] || blocks[0].header.timestamp > clock[0] + MAX_FUTURE then 0
    else 1 + TimelyPrefix(blocks[1..], clock[1..])
  }

  lemma {:induction false} TimelyPrefixIsAll(blocks: seq<BlockV>, clock: seq<int>)
    requires |clock| == |blocks|
    ensures TimelyPrefix(blocks, clock) == |blocks| <==> Timely(blocks, clock)
    decreases |blocks|
  {
    if blocks != [] {
      TimelyPrefixIsAll(blocks[1..], clock[1..]);
      if Timely(blocks[1..], clock[1..]) && blocks[0].header.timestamp <= clock[0] + MAX_FUTURE {
        forall i | 0 <= i < |blocks| ensures blocks[i].header.timestamp <= clock[i] + MAX_FUTURE {
          assert i > 0 ==> blocks[i] == blocks[1..][i - 1];
        }
      }
    }
  }

  /** Once a block has been refused, none of its successors fits. */
  lemma SuccessorsRejected(env: Env, ours: Chain, peer: Chain, k: nat, now: int)
    requires ChainOk(env, ours) && ChainOk(env, peer) && HashesBehave(env, ours, peer)
    requires 0 < |ours| && |ours| + k < |peer| && peer[|ours| - 1].hash == ours[|ours| - 1].hash
    requires peer[|ours| + k].header.timestamp > now + MAX_FUTURE
    ensures Received(env, ours + peer[|ours|..][..k], peer[|ours|..][k], now) == ours + peer[|ours|..][..k]
    ensures forall j, at :: k < j < |peer| - |ours| ==>
      Received(env, ours + peer[|ours|..][..k], peer[|ours|..][j], at) == ours + peer[|ours|..][..k]
  {
    var h, c := |ours|, ours + peer[|ours|..][..k];
    SliceOfSlice(peer, h, k);
    assert c[|c| - 1].hash == peer[h + k - 1].hash;
    ValidationMeans(env, c, peer[h + k], now);
    forall j, at | k < j < |peer| - h ensures Received(env, c, peer[h..][j], at) == c {
      assert Follows(env, peer[h + j - 1], peer[h + j]);
      if peer[h + j - 1].hash == peer[h + k - 1].hash {
        HashesDistinct(env, peer, h + j - 1, h + k - 1);
      }
    }
  }

  lemma RestRejected(env: Env, ours: Chain, peer: Chain, clock: seq<int>, k: nat)
    requires ChainOk(env, ours) && ChainOk(env, peer) && HashesBehave(env, ours, peer)
    requires 0 < |ours| && |ours| + k < |peer| && peer[|ours| - 1].hash == ours[|ours| - 1].hash
    requires |clock| == |peer| - |ours| && peer[|ours| + k].header.timestamp > clock[k] + MAX_FUTURE
    ensures ReceivedAll(env, ours + peer[|ours|..][..k], peer[|ours|..][k..], clock[k..]) == ours + peer[|ours|..][..k]
  {
    var c, blocks, times := ours + peer[|ours|..][..k], peer[|ours|..][k..], clock[k..];
    SuccessorsRejected(env, ours, peer, k, clock[k]);
    forall j | 0 <= j < |blocks| ensures Received(env, c, blocks[j], times[j]) == c {
      assert blocks[j] == peer[|ours|..][k + j] && times[j] == clock[k + j];
    }
    assert blocks[0..] == blocks && times[0..] == times;
    RejectAll(env, c, blocks, times, 0);
  }

  /** With the first k blocks adopted, the others are adopted up to the first that is dated too far ahead. */
  predicate AdoptsFrom(env: Env, ours: Chain, blocks: seq<BlockV>, clock: seq<int>, k: nat)
    requires k <= |blocks| == |clock|
  {
    ReceivedAll(env, ours + blocks[..k], blocks[k..], clock[k..]) == ours + blocks[..k + TimelyPrefix(blocks[k..], clock[k..])]
  }

  lemma {:induction false} AdoptTimely(env: Env, ours: Chain, peer: Chain, clock: seq<int>, k: nat)
    requires ChainOk(env, ours) && ChainOk(env, peer) && HashesBehave(env, ours, peer)
    requires 0 < |ours| && |ours| + k <= |peer| && peer[|ours| - 1].hash == ours[|ours| - 1].hash
    requires |clock| == |peer| - |ours|
    ensures AdoptsFrom(env, ours, peer[|ours|..], clock, k)
    decreases |peer| - k
  {
    var blocks := peer[|ours|..];
    if k < |blocks| {
      if blocks[k].header.timestamp > clock[k] + MAX_FUTURE {
        RestRejected(env, ours, peer, clock, k);
        StopsHere(env, ours, blocks, clock, k);
      } else {
        AdoptNth(env, ours, peer, k, clock[k]);
        AdoptTimely(env, ours, peer, clock, k + 1);
        GoesOn(env, ours, blocks, clock, k);
      }
    }
  }

  lemma StopsHere(env: Env, ours: Chain, blocks: seq<BlockV>, clock: seq<int>, k: nat)
    requires k < |blocks| == |clock| && blocks[k].header.timestamp > clock[k] + MAX_FUTURE
    requires ReceivedAll(env, ours + blocks[..k], blocks[k..], clock[k..]) == ours + blocks[..k]
    ensures AdoptsFrom(env, ours, blocks, clock, k)
  {
    assert blocks[k..][0] == blocks[k] && clock[k..][0] == clock[k];
  }

  lemma GoesOn(env: Env, ours: Chain, blocks: seq<BlockV>, clock: seq<int>, k: nat)
    requires k < |blocks| == |clock| && blocks[k].header.timestamp <= clock[k] + MAX_FUTURE
    requires Received(env, ours + blocks[..k], blocks[k], clock[k]) == ours + blocks[..k + 1]
    requires AdoptsFrom(env, ours, blocks, clock, k + 1)
    ensures AdoptsFrom(env, ours, blocks, clock, k)
  {
    assert blocks[k..][0] == blocks[k] && clock[k..][0] == clock[k];
    assert blocks[k..][1..] == blocks[k + 1..] && clock[k..][1..] == clock[k + 1..];
  }

  predicate Fits(ours: Chain, peer: Chain)
    requires 0 < |ours| < |peer|
  {
    peer[|ours| - 1].hash == ours[|ours| - 1].hash
  }

  /** Exactly what a download adopts: everything before the first block dated more than two hours ahead of our
      clock if the peer's block at our height is our tip, and nothing otherwise. */
  lemma DownloadExact(env: Env, ours: Chain, peer: Chain, clock: seq<int>)
    requires ChainOk(env, ours) && ChainOk(env, peer) && HashesBehave(env, ours, peer)
    requires |peer| > |ours| && |clock| == |peer| - |ours|
    ensures !Fits(ours, peer) ==> Downloaded(env, ours, peer, clock) == ours
    ensures Fits(ours, peer) ==>
      Downloaded(env, ours, peer, clock) == ours + peer[|ours|..][..TimelyPrefix(peer[|ours|..], clock)]
    ensures Downloaded(env, ours, peer, clock) == ours + peer[|ours|..] <==> Fits(ours, peer) && Timely(peer[|ours|..], clock)
  {
    var blocks := peer[|ours|..];
    if Fits(ours, peer) {
      DownloadFits(env, ours, peer, clock);
      TimelyPrefixIsAll(blocks, clock);
      PrefixIsAll(ours, blocks, TimelyPrefix(blocks, clock));
    } else {
      PeerBlocksRejected(env, ours, peer, clock);
      assert blocks[0..] == blocks && clock[0..] == clock;
      RejectAll(env, ours, blocks, clock, 0);
    }
  }

  /** What adopting from block 0 on means. */
  lemma FromTheStart(env: Env, ours: Chain, blocks: seq<BlockV>, clock: seq<int>)
    requires |clock| == |blocks| && AdoptsFrom(env, ours, blocks, clock, 0)
    ensures ReceivedAll(env, ours, blocks, clock) == ours + blocks[..TimelyPrefix(blocks, clock)]
  {
    assert blocks[0..] == blocks && clock[0..] == clock;
    assert ours + blocks[..0] == ours;
  }

  /** From a peer that is not higher nothing is asked. */
  lemma NothingFromLower(env: Env, ours: Chain, peer: Chain)
    requires |peer| <= |ours|
    ensures Downloaded(env, ours, peer, []) == ours
  {
  }

  lemma DownloadFits(env: Env, ours: Chain, peer: Chain, clock: seq<int>)
    requires ChainOk(env, ours) && ChainOk(env, peer) && HashesBehave(env, ours, peer)
    requires |peer| > |ours| && |clock| == |peer| - |ours| && Fits(ours, peer)
    ensures Downloaded(env, ours, peer, clock) == ours + peer[|ours|..][..TimelyPrefix(peer[|ours|..], clock)]
  {
    var blocks := peer[|ours|..];
    AdoptTimely(env, ours, peer, clock, 0);
    FromTheStart(env, ours, blocks, clock);
    assert Downloaded(env, ours, peer, clock) == ReceivedAll(env, ours, blocks, clock);
  }

  lemma PrefixIsAll(a: Chain, b: Chain, m: nat)
    requires m <= |b|
    ensures a + b[..m] == a + b <==> m == |b|
  {
    assert |a + b[..m]| == |a| + m && b[..|b|] == b;
  }

  lemma ExtendingPeerFits(env: Env, ours: Chain, peer: Chain)
    requires ChainOk(env, peer) && 0 < |ours| < |peer| && ours <= peer && HashesBehave(env, peer, peer)
    ensures ChainOk(env, ours) && HashesBehave(env, ours, peer) && Fits(ours, peer)
    ensures ours + peer[|ours|..] == peer
  {
    PrefixOk(env, peer, |ours|);
    assert peer[..|ours|] == ours;
    PrefixesDoNotCollide(env, peer, peer, |ours|, |peer|);
    assert peer[..|peer|] == peer;
  }

  /** A peer whose chain extends ours: afterwards our chain is the peer's. */
  lemma ExtendingPeerIsAdopted(env: Env, ours: Chain, peer: Chain, clock: seq<int>)
    requires ChainOk(env, peer) && 0 < |ours| < |peer| && ours <= peer && HashesBehave(env, peer, peer)
    requires |clock| == |peer| - |ours|
    ensures Downloaded(env, ours, peer, clock) == peer <==> Timely(peer[|ours|..], clock)
  {
    ExtendingPeerFits(env, ours, peer);
    DownloadExact(env, ours, peer, clock);
  }

  /** ---------- What a peer sends ---------- */

  /** Blocks from index `start` on; a negative index means from the beginning. */
  function Suffix<T>(chain: seq<T>, start: int): seq<T> {
    if start < 0 then chain else if start <= |chain| then chain[start..] else []
  }

  lemma SuffixIs<T>(chain: seq<T>, start: int)
    ensures |Suffix(chain, start)| == (if start < 0 then |chain| else if start < |chain| then |chain| - start else 0)
    ensures forall k :: 0 <= k < |Suffix(chain, start)| ==> Suffix(chain, start)[k] == chain[if start < 0 then k else start + k]
  {
  }

  /** A peer sends its blocks as they are now: earlier spends have rewritten the outputs, and nothing else. */
  predicate SameButOutputs(a: Chain, b: Chain) {
    |a| == |b| && forall i :: 0 <= i < |a| ==> SameBlock(a[i], b[i])
  }

  lemma SameBlockFollows(env: Env, p: BlockV, a: BlockV, q: BlockV, b: BlockV)
    requires SameBlock(a, b) && p.hash == q.hash
    ensures Follows(env, p, a) <==> Follows(env, q, b)
  {
    FaultIgnoresOutputs(env, [p], [q], a, b, a.header.timestamp);
    ValidationMeans(env, [p], a, a.header.timestamp);
    ValidationMeans(env, [q], b, a.header.timestamp);
  }

  lemma SameBlockGenesis(env: Env, a: BlockV, b: BlockV)
    requires SameBlock(a, b)
    ensures GenesisOk(env, a) <==> GenesisOk(env, b)
  {
    assert Ids(a.txs) == Ids(b.txs);
    forall i | 0 <= i < |a.txs| ensures a.txs[i].inputs == b.txs[i].inputs {
      assert SameTx(a.txs[i], b.txs[i]);
    }
  }

  /** Validity does not depend on outputs, so what holds of a chain holds of what is sent of it. */
  lemma ChainOkIgnoresOutputs(env: Env, a: Chain, b: Chain)
    requires SameButOutputs(a, b) && ChainOk(env, b)
    ensures ChainOk(env, a)
  {
    SameBlockGenesis(env, a[0], b[0]);
    forall i | 1 <= i < |a| ensures Follows(env, a[i - 1], a[i]) {
      assert SameBlock(a[i - 1], b[i - 1]) && SameBlock(a[i], b[i]);
      SameBlockFollows(env, a[i - 1], a[i], b[i - 1], b[i]);
    }
  }

  lemma HashesIgnoreOutputs(env: Env, ours: Chain, a: Chain, b: Chain)
    requires SameButOutputs(a, b) && HashesBehave(env, ours, b)
    ensures HashesBehave(env, ours, a)
  {
    forall i, j | 0 <= i < |ours| && 0 <= j < |a| ensures !HeadersCollide(env, ours[i], a[j]) {
      assert SameBlock(a[j], b[j]);
    }
    forall i, j | 0 <= i < |a| && 0 <= j < |a| ensures !HeadersCollide(env, a[i], a[j]) {
      assert SameBlock(a[i], b[i]) && SameBlock(a[j], b[j]);
    }
    forall i | 0 <= i < |a| ensures a[i].hash != ZeroBytes(32) {
      assert SameBlock(a[i], b[i]);
    }
  }

  lemma SentIsSame(peer: Chain, h: nat, response: seq<BlockV>)
    requires h <= |peer| && SameButOutputs(response, Suffix(peer, h))
    ensures SameButOutputs(peer[..h] + response, peer)
  {
    var sent := peer[..h] + response;
    forall i | 0 <= i < |sent| ensures SameBlock(sent[i], peer[i]) {
      if i >= h {
        assert SameBlock(response[i - h], Suffix(peer, h)[i - h]);
      }
    }
  }

  /** The outcome of a download, whatever the peer's outputs have become. */
  lemma ResponseOutcome(env: Env, ours: Chain, peer: Chain, response: seq<BlockV>, clock: seq<int>)
    requires ChainOk(env, ours) && ChainOk(env, peer) && HashesBehave(env, ours, peer) && |peer| > |ours|
    requires SameButOutputs(response, Suffix(peer, |ours|)) && |clock| == |response|
    ensures !Fits(ours, peer) ==> ReceivedAll(env, ours, response, clock) == ours
    ensures Fits(ours, peer) ==> ReceivedAll(env, ours, response, clock) == ours + response[..TimelyPrefix(response, clock)]
  {
    var h := |ours|;
    var sent := peer[..h] + response;
    SentIsSame(peer, h, response);
    ChainOkIgnoresOutputs(env, sent, peer);
    HashesIgnoreOutputs(env, ours, sent, peer);
    assert sent[h..] == response;
    DownloadExact(env, ours, sent, clock);
  }
}
