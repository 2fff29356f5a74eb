/** The generator that cuts fat blocks up, stores the pieces and catches up with the fat chain. */
module SparseGenerator {
  import opened Common
  import opened SparseRouting
  import opened SparseChain

  /** A block as it is made, before its metadata is filled in. */
  function RawBlock(w: World, head: ChannelHead, org: Org, details: seq<TxnDetails>): Block {
    var data := Payloads(details);
    Block(Header(NextNumber(head, org), PreviousHash(head, org), w.dataHash(data)), data, "", "", NoFilter)
  }

  method CreateNextBlock(w: World, details: seq<TxnDetails>, previousHash: Bytes, number: nat)
    returns (block: Block, indices: seq<nat>)
    ensures block == Block(
                       Header(number, previousHash, w.dataHash(Payloads(details))), Payloads(details), "", "", NoFilter)
    ensures indices == IndexList(details)
  {
    var data: array<Bytes> := new Bytes[|details|](_ => "");
    var list: array<nat> := new nat[|details|](_ => 0);
    for i := 0 to |details|
      invariant forall k | 0 <= k < i :: data[k] == details[k].bytes && list[k] == details[k].index
    {
      data[i], list[i] := details[i].bytes, details[i].index;
    }
    assert data[..] == Payloads(details);
    indices := list[..];
    block := Block(Header(number, previousHash, w.dataHash(data[..])), data[..], "", "", NoFilter);
  }

  method CreateLocalBlocks(w: World, head: ChannelHead, m: Envelopes)
    returns (blocks: map<Org, Block>, indices: map<Org, seq<nat>>)
    ensures blocks == map org | org in m :: RawBlock(w, head, org, m[org])
    ensures indices == map org | org in m :: IndexList(m[org])
  {
    blocks, indices := map[], map[];
    var todo := m.Keys;
    while todo != {}
      invariant todo <= m.Keys
      invariant blocks.Keys == indices.Keys == m.Keys - todo
      invariant forall org | org in blocks :: blocks[org] == RawBlock(w, head, org, m[org])
      invariant forall org | org in indices :: indices[org] == IndexList(m[org])
    {
      var org :| org in todo;
      var number, previous := 0, "";
      if org in head.heads {
        number, previous := head.heads[org].lastNum + 1, head.heads[org].lastHash;
      }
      var block, list := CreateNextBlock(w, m[org], previous, number);
      blocks, indices := blocks[org := block], indices[org := list];
      todo := todo - {org};
    }
  }

  /** What a routed organisation gets: its block, its details and its new head. */
  predicate CutFor(
    w: World, channel: Org, head: ChannelHead, blk: Block, org: Org, b: Block, d: OrgDetails, h: Head)
  {
    && (IsConfigBlock(w, blk) || org in head.heads)
    && b == NextBlock(w, channel, head, blk, org)
    && d == NextDetails(w, channel, head, blk, org)
    && h == NextHead(w, channel, head, blk, org)
  }

  /** The organisations handled so far have been given their blocks, details and heads; the rest are as before. */
  predicate CutSoFar(
    w: World, channel: Org, head: ChannelHead, blk: Block,
    blocks: map<Org, Block>, details: map<Org, OrgDetails>, heads: map<Org, Head>)
  {
    && details.Keys == blocks.Keys
    && heads.Keys == head.heads.Keys + blocks.Keys
    && (forall org | org in blocks :: CutFor(w, channel, head, blk, org, blocks[org], details[org], heads[org]))
    && (forall org | org in head.heads && org !in blocks :: heads[org] == head.heads[org])
  }

  lemma CutOneMore(
    w: World, channel: Org, head: ChannelHead, blk: Block,
    blocks: map<Org, Block>, details: map<Org, OrgDetails>, heads: map<Org, Head>, org: Org,
    b: Block, d: OrgDetails, h: Head)
    requires CutSoFar(w, channel, head, blk, blocks, details, heads)
    requires CutFor(w, channel, head, blk, org, b, d, h)
    ensures CutSoFar(w, channel, head, blk, blocks[org := b], details[org := d], heads[org := h])
  {
    hide CutFor;
  }

  lemma NothingCut(w: World, channel: Org, head: ChannelHead, blk: Block)
    ensures CutSoFar(w, channel, head, blk, map[], map[], head.heads)
  {
  }

  lemma HeadBefore(
    w: World, channel: Org, head: ChannelHead, blk: Block,
    blocks: map<Org, Block>, details: map<Org, OrgDetails>, heads: map<Org, Head>, org: Org)
    requires CutSoFar(w, channel, head, blk, blocks, details, heads) && org !in blocks
    ensures org in heads <==> org in head.heads
    ensures org in heads ==> heads[org] == head.heads[org]
  {
    hide CutFor;
  }

  function FilledIn(w: World, b: Block, filter: SparseTxnFilter, lastConfig: nat): Block {
    b.(filter := Wrapped(filter),
       lastConfig := w.lastConfigBytes(lastConfig),
       signatures := w.sign(b.header, lastConfig))
  }

  function DetailsFor(b: Block, indices: seq<nat>, filter: SparseTxnFilter, lastConfig: nat): OrgDetails {
    OrgDetails(
      b.header.number, b.header.dataHash, indices, b.header.previousHash, lastConfig, filter, b.lastConfig,
      b.signatures)
  }

  function HeadFor(w: World, b: Block, fatNumber: nat, lastConfig: nat): Head {
    Head(b.header.number, w.headerHash(b.header), fatNumber, lastConfig)
  }

  lemma FilledInIsCut(w: World, channel: Org, head: ChannelHead, blk: Block, org: Org, raw: Block)
    requires IsConfigBlock(w, blk) || org in head.heads
    requires raw == RawBlock(w, head, org, Routed(w, channel, blk, org))
    ensures var lastConfig := if IsConfigBlock(w, blk) then raw.header.number else head.heads[org].lastConfig;
            var filter := FilterOf(w, channel, blk, org);
            var b := FilledIn(w, raw, filter, lastConfig);
            CutFor(
              w, channel, head, blk, org, b, DetailsFor(b, IndexList(Routed(w, channel, blk, org)), filter, lastConfig),
              HeadFor(w, b, blk.header.number, lastConfig))
  {
    hide FilterOf, Routed, IndexList, Payloads;
  }

  /** The metadata of the raw blocks is filled in and the heads are moved on, one organisation at a time. */
  method StoreOrgBlockSkeleton(
    w: World, channel: Org, head: ChannelHead, blk: Block, isConfig: bool,
    raw: map<Org, Block>, filters: Filters, indices: map<Org, seq<nat>>)
    returns (ok: bool, blocks: map<Org, Block>, details: map<Org, OrgDetails>, heads: map<Org, Head>)
    requires isConfig == IsConfigBlock(w, blk)
    requires raw.Keys == filters.Keys == indices.Keys
    requires forall org | org in raw ::
               && raw[org] == RawBlock(w, head, org, Routed(w, channel, blk, org))
               && filters[org] == FilterOf(w, channel, blk, org)
               && indices[org] == IndexList(Routed(w, channel, blk, org))
    ensures ok <==> isConfig || raw.Keys <= head.heads.Keys
    ensures ok ==> blocks.Keys == raw.Keys && CutSoFar(w, channel, head, blk, blocks, details, heads)
  {
    hide FilterOf, Routed, IndexList, IsConfigBlock, RawBlock, CutFor, CutSoFar, FilledIn, DetailsFor, HeadFor;
    ok, blocks, details, heads := true, map[], map[], head.heads;
    NothingCut(w, channel, head, blk);
    var todo := raw.Keys;
    while todo != {}
      invariant todo <= raw.Keys
      invariant blocks.Keys == raw.Keys - todo
      invariant isConfig || blocks.Keys <= head.heads.Keys
      invariant CutSoFar(w, channel, head, blk, blocks, details, heads)
    {
      var org :| org in todo;
      HeadBefore(w, channel, head, blk, blocks, details, heads, org);
      if !isConfig && org !in heads {
        ok := false;
        return;
      }
      var b := raw[org];
      var lastConfig := if isConfig then b.header.number else heads[org].lastConfig;
      FilledInIsCut(w, channel, head, blk, org, b);
      b := FilledIn(w, b, filters[org], lastConfig);
      var d, h := DetailsFor(b, indices[org], filters[org], lastConfig), HeadFor(w, b, blk.header.number, lastConfig);
      CutOneMore(w, channel, head, blk, blocks, details, heads, org, b, d, h);
      blocks, details, heads := blocks[org := b], details[org := d], heads[org := h];
      todo := todo - {org};
    }
  }

  /** What the fat block becomes, keyed by organisation. */
  method CutFatBlock(w: World, channel: Org, head: ChannelHead, blk: Block)
    returns (ok: bool, blocks: map<Org, Block>, details: map<Org, OrgDetails>, newHead: ChannelHead)
    ensures ok <==> CanCreate(w, channel, head, blk)
    ensures ok ==>
              && blocks == (map org | org in RoutedOrgs(w, channel, blk) :: NextBlock(w, channel, head, blk, org))
              && details == (map org | org in RoutedOrgs(w, channel, blk) :: NextDetails(w, channel, head, blk, org))
              && newHead == Extended(w, channel, Store(head, map[], map[], map[], None), blk).head
  {
    hide Routed, RoutedOrgs, NextBlock, NextDetails, NextHead, FiltersAgree, ListsExactly, RawBlock, CutSoFar, FilterOf;
    hide IndexList, Extended, EnvelopesFor, IsConfigBlock, Decodable;
    blocks, details, newHead := map[], map[], head;
    var isConfig := IsConfigBlock(w, blk);
    var m, filters;
    ok, m, filters := AggregateOrgEnvelope(w, channel, blk);
    if !ok {
      return;
    }
    EnvelopesAsSpecified(w, channel, blk, m);
    FiltersAsSpecified(w, channel, blk, m, filters);
    var raw, indices := CreateLocalBlocks(w, head, m);
    var heads;
    ok, blocks, details, heads := StoreOrgBlockSkeleton(w, channel, head, blk, isConfig, raw, filters, indices);
    newHead := ChannelHead(blk.header.number, heads);
    if ok {
      CutIsWhole(w, channel, head, blk, blocks, details, heads);
    }
  }

  lemma CutIsWhole(
    w: World, channel: Org, head: ChannelHead, blk: Block,
    blocks: map<Org, Block>, details: map<Org, OrgDetails>, heads: map<Org, Head>)
    requires CanCreate(w, channel, head, blk)
    requires blocks.Keys == RoutedOrgs(w, channel, blk) && CutSoFar(w, channel, head, blk, blocks, details, heads)
    ensures blocks == (map org | org in RoutedOrgs(w, channel, blk) :: NextBlock(w, channel, head, blk, org))
    ensures details == (map org | org in RoutedOrgs(w, channel, blk) :: NextDetails(w, channel, head, blk, org))
    ensures ChannelHead(blk.header.number, heads)
            == Extended(w, channel, Store(head, map[], map[], map[], None), blk).head
  {
    hide RoutedOrgs, NextBlock, NextDetails, NextHead, NextNumber, CutFor, Extended;
    forall org | org in blocks
      ensures blocks[org] == NextBlock(w, channel, head, blk, org)
      ensures details[org] == NextDetails(w, channel, head, blk, org)
      ensures heads[org] == NextHead(w, channel, head, blk, org)
    {
      CutForMeans(w, channel, head, blk, org, blocks[org], details[org], heads[org]);
    }
    HeadsAreExtended(w, channel, head, blk, heads);
  }

  lemma CutForMeans(w: World, channel: Org, head: ChannelHead, blk: Block, org: Org, b: Block, d: OrgDetails, h: Head)
    requires CutFor(w, channel, head, blk, org, b, d, h) && (IsConfigBlock(w, blk) || org in head.heads)
    ensures b == NextBlock(w, channel, head, blk, org)
    ensures d == NextDetails(w, channel, head, blk, org)
    ensures h == NextHead(w, channel, head, blk, org)
  {
  }

  lemma HeadsAreExtended(w: World, channel: Org, head: ChannelHead, blk: Block, heads: map<Org, Head>)
    requires CanCreate(w, channel, head, blk) && heads.Keys == head.heads.Keys + RoutedOrgs(w, channel, blk)
    requires forall org | org in RoutedOrgs(w, channel, blk) :: heads[org] == NextHead(w, channel, head, blk, org)
    requires forall org | org in head.heads && org !in RoutedOrgs(w, channel, blk) :: heads[org] == head.heads[org]
    ensures ChannelHead(blk.header.number, heads)
            == Extended(w, channel, Store(head, map[], map[], map[], None), blk).head
  {
    hide RoutedOrgs, NextBlock, NextDetails, NextHead, NextNumber;
    assert heads == head.heads + map org | org in RoutedOrgs(w, channel, blk) :: NextHead(w, channel, head, blk, org);
  }

  lemma EnvelopesAsSpecified(w: World, channel: Org, blk: Block, m: Envelopes)
    requires ListsExactly(m) && forall org :: EnvelopesFor(m, org) == Routed(w, channel, blk, org)
    ensures m.Keys == RoutedOrgs(w, channel, blk)
    ensures forall org | org in m :: m[org] == Routed(w, channel, blk, org)
  {
    hide Routed, RoutedOrgs;
    forall org ensures org in m <==> org in RoutedOrgs(w, channel, blk) {
      RoutedExactlyWhen(w, channel, blk, org);
      assert EnvelopesFor(m, org) == Routed(w, channel, blk, org);
    }
    forall org | org in m ensures m[org] == Routed(w, channel, blk, org) {
      assert EnvelopesFor(m, org) == Routed(w, channel, blk, org);
    }
  }

  lemma FiltersAsSpecified(w: World, channel: Org, blk: Block, m: Envelopes, filters: Filters)
    requires FiltersAgree(m, filters, blk.header.number)
    requires forall org :: EnvelopesFor(m, org) == Routed(w, channel, blk, org)
    ensures filters.Keys == m.Keys && forall org | org in m :: filters[org] == FilterOf(w, channel, blk, org)
  {
    hide Routed, Infos;
    forall org | org in m ensures filters[org] == FilterOf(w, channel, blk, org) {
      assert EnvelopesFor(m, org) == Routed(w, channel, blk, org);
    }
  }

  // ------------------------------------------------------- processing and catching up

  /** Fat blocks taken from the ledger one after the other. */
  function Folded(w: World, channel: Org, ledger: seq<Block>, st: Store, from: nat, to: nat): Option<Store>
    requires to <= |ledger|
  {
    if from >= to then Some(st)
    else
      var before := Folded(w, channel, ledger, st, from, to - 1);
      if before.None? then None else Processed(w, channel, ledger, before.value, ledger[to - 1])
  }

  /** One turn of the main loop: what the fat ledger holds by then and the block that has come in. */
  datatype Turn = Turn(ledger: seq<Block>, number: nat)

  predicate InLedger(t: Turn) {
    t.number < |t.ledger|
  }

  predicate Numbered(ledger: seq<Block>) {
    forall i | 0 <= i < |ledger| :: ledger[i].header.number == i
  }

  /** A turn catches up with what lies before the incoming block, then takes the block. */
  function AfterTurn(w: World, channel: Org, st: Store, t: Turn): Option<Store>
    requires InLedger(t)
  {
    var caught :=
      if t.number > st.head.lastFat + 1 then
        Folded(w, channel, t.ledger, st, st.head.lastFat + 1, t.number)
      else Some(st);
    if caught.None? then None else Processed(w, channel, t.ledger, caught.value, t.ledger[t.number])
  }

  function AfterTurns(w: World, channel: Org, st: Store, turns: seq<Turn>): Option<Store>
    requires forall i | 0 <= i < |turns| :: InLedger(turns[i])
  {
    if turns == [] then Some(st)
    else
      var before := AfterTurns(w, channel, st, turns[..|turns| - 1]);
      if before.None? then None else AfterTurn(w, channel, before.value, turns[|turns| - 1])
  }

  /** The numbers taken in a turn, in order. */
  function Handled(last: nat, n: nat): seq<nat> {
    if n > last + 1 then Range(last + 1, n + 1) else [n]
  }

  function HandledAll(last: nat, ns: seq<nat>): seq<nat> {
    if ns == [] then []
    else
      var k := |ns| - 1;
      HandledAll(last, ns[..k]) + Handled(if k > 0 then ns[k - 1] else last, ns[k])
  }

  function Numbers(turns: seq<Turn>): (r: seq<nat>)
    ensures |r| == |turns|
  {
    seq(|turns|, i requires 0 <= i < |turns| => turns[i].number)
  }

  lemma ProcessedNames(w: World, channel: Org, ledger: seq<Block>, st: Store, blk: Block)
    requires Processed(w, channel, ledger, st, blk).Some?
    ensures Processed(w, channel, ledger, st, blk).value.head.lastFat == blk.header.number
  {
    hide Started, CanCreate, RoutedOrgs, NextBlock, NextDetails, NextHead, NextNumber;
  }

  /** The new blocks of some organisations entered in the index. */
  function Indexed(index: map<(Org, nat), nat>, blocks: map<Org, Block>, orgs: set<Org>, number: nat)
    : map<(Org, nat), nat>
    requires orgs <= blocks.Keys
  {
    index + map org | org in orgs :: (org, blocks[org].header.number) := number
  }

  /** The new blocks of some organisations entered in the cache. */
  function Cached(cache: map<(Org, nat), Block>, blocks: map<Org, Block>, orgs: set<Org>): map<(Org, nat), Block>
    requires orgs <= blocks.Keys
  {
    cache + map org | org in orgs :: (org, blocks[org].header.number) := blocks[org]
  }

  predicate SameAt<K, V(==)>(m: map<K, V>, m': map<K, V>, k: K) {
    (k in m <==> k in m') && (k in m ==> m[k] == m'[k])
  }

  lemma SameMaps<K(!new), V>(m: map<K, V>, m': map<K, V>)
    requires forall k :: SameAt(m, m', k)
    ensures m == m'
  {
    assert forall k | k in m :: SameAt(m, m', k);
    assert forall k | k in m' :: SameAt(m, m', k);
  }

  predicate EnteredAt(blocks: map<Org, Block>, orgs: set<Org>, k: (Org, nat))
    requires orgs <= blocks.Keys
  {
    k.0 in orgs && k.1 == blocks[k.0].header.number
  }

  lemma IndexedAt(index: map<(Org, nat), nat>, blocks: map<Org, Block>, orgs: set<Org>, number: nat, k: (Org, nat))
    requires orgs <= blocks.Keys
    ensures k in Indexed(index, blocks, orgs, number) <==> k in index || EnteredAt(blocks, orgs, k)
    ensures k in Indexed(index, blocks, orgs, number) ==>
              Indexed(index, blocks, orgs, number)[k] == if EnteredAt(blocks, orgs, k) then number else index[k]
  {
  }

  lemma CachedAsEntered(cache: map<(Org, nat), Block>, blocks: map<Org, Block>, orgs: set<Org>, k: (Org, nat))
    requires orgs <= blocks.Keys
    ensures k in Cached(cache, blocks, orgs) <==> k in cache || EnteredAt(blocks, orgs, k)
    ensures k in Cached(cache, blocks, orgs) ==>
              Cached(cache, blocks, orgs)[k] == if EnteredAt(blocks, orgs, k) then blocks[k.0] else cache[k]
  {
  }

  lemma OneMoreEntered(
    index: map<(Org, nat), nat>, cache: map<(Org, nat), Block>, blocks: map<Org, Block>, orgs: set<Org>, org: Org,
    number: nat)
    requires orgs <= blocks.Keys && org in blocks
    ensures Indexed(index, blocks, orgs + {org}, number)
            == Indexed(index, blocks, orgs, number)[(org, blocks[org].header.number) := number]
    ensures Cached(cache, blocks, orgs + {org})
         == Cached(cache, blocks, orgs)[(org, blocks[org].header.number) := blocks[org]]
  {
    hide Indexed, Cached;
    var key := (org, blocks[org].header.number);
    var i, i' := Indexed(index, blocks, orgs, number)[key := number], Indexed(index, blocks, orgs + {org}, number);
    var c, c' := Cached(cache, blocks, orgs)[key := blocks[org]], Cached(cache, blocks, orgs + {org});
    forall k ensures SameAt(i', i, k) && SameAt(c', c, k) {
      IndexedAt(index, blocks, orgs, number, k);
      IndexedAt(index, blocks, orgs + {org}, number, k);
      CachedAsEntered(cache, blocks, orgs, k);
      CachedAsEntered(cache, blocks, orgs + {org}, k);
    }
    SameMaps(i', i);
    SameMaps(c', c);
  }

  lemma NothingEntered(index: map<(Org, nat), nat>, cache: map<(Org, nat), Block>, blocks: map<Org, Block>, number: nat)
    ensures Indexed(index, blocks, {}, number) == index && Cached(cache, blocks, {}) == cache
  {
  }

  lemma ExtendedIsEntered(w: World, channel: Org, st: Store, blk: Block, blocks: map<Org, Block>)
    requires CanCreate(w, channel, st.head, blk)
    requires blocks == map org | org in RoutedOrgs(w, channel, blk) :: NextBlock(w, channel, st.head, blk, org)
    ensures Extended(w, channel, st, blk).index == Indexed(st.index, blocks, blocks.Keys, blk.header.number)
    ensures Extended(w, channel, st, blk).cache == Cached(st.cache, blocks, blocks.Keys)
  {
    hide RoutedOrgs, NextBlock, NextDetails, NextHead, NextNumber, Indexed, Cached, Extended;
    var st' := Extended(w, channel, st, blk);
    forall k
      ensures SameAt(st'.index, Indexed(st.index, blocks, blocks.Keys, blk.header.number), k)
      ensures SameAt(st'.cache, Cached(st.cache, blocks, blocks.Keys), k)
    {
      ExtendedAt(w, channel, st, blk, k);
      IndexedAt(st.index, blocks, blocks.Keys, blk.header.number, k);
      CachedAsEntered(st.cache, blocks, blocks.Keys, k);
      if k.0 in blocks { NextBlockNumber(w, channel, st.head, blk, k.0); }
    }
    SameMaps(st'.index, Indexed(st.index, blocks, blocks.Keys, blk.header.number));
    SameMaps(st'.cache, Cached(st.cache, blocks, blocks.Keys));
  }

  lemma ExtendedRest(w: World, channel: Org, st: Store, blk: Block)
    requires CanCreate(w, channel, st.head, blk)
    ensures var st' := Extended(w, channel, st, blk);
            && st'.head == Extended(w, channel, Store(st.head, map[], map[], map[], None), blk).head
            && st'.head.lastFat == blk.header.number
            && st'.info == st.info[blk.header.number :=
                             map org | org in RoutedOrgs(w, channel, blk) :: NextDetails(w, channel, st.head, blk, org)]
            && st'.savePoint == st.savePoint
  {
    hide RoutedOrgs, NextBlock, NextDetails, NextHead, NextNumber;
  }

  class Generator {
    const w: World
    const channel: Org
    /** The fat chain, as far as it has been written. */
    var ledger: seq<Block>
    var head: ChannelHead
    /** The metadata store and the cache. */
    var savedHead: ChannelHead
    var index: map<(Org, nat), nat>
    var info: map<nat, map<Org, OrgDetails>>
    var cache: map<(Org, nat), Block>
    var savePoint: Option<nat>
    /** The numbers of the fat blocks processed so far. */
    ghost var log: seq<nat>

    /** What readers can see. */
    ghost function Stored(): Store
      reads this
    {
      Store(savedHead, index, info, cache, savePoint)
    }

    /** The head in use is the saved one. */
    ghost predicate Valid()
      reads this
    {
      head == savedHead
    }

    /** A generator picks up what an earlier one has stored. */
    constructor (w: World, channel: Org, ledger: seq<Block>, st: Store)
      ensures Valid() && Stored() == st.(cache := map[]) && log == []
      ensures this.w == w && this.channel == channel && this.ledger == ledger
    {
      this.w, this.channel, this.ledger := w, channel, ledger;
      head, savedHead, index, info, cache, savePoint := st.head, st.head, st.index, st.info, map[], st.savePoint;
      log := [];
    }

    /** The heads to start from; the first block after genesis writes the save point. */
    method StartHeads(blk: Block) returns (h: ChannelHead)
      requires Valid()
      modifies this`savePoint
      ensures Started(w, channel, ledger, old(Stored()), blk) == Stored().(head := h)
    {
      h := head;
      if head.heads == map[] {
        h := ChannelHead(0, map[]);
        if blk.header.number != 0 && |ledger| >= 2 {
          var last := ledger[|ledger| - 2];
          savePoint := Some(|ledger| - 2);
          var lastConfig := if IsConfigBlock(w, last) then blk.header.number else w.lastConfigIndex(last);
          var position := Head(|ledger| - 2, w.headerHash(last.header), |ledger| - 2, lastConfig);
          h := ChannelHead(|ledger| - 2, map[channel := position, LITE_PEER := position]);
        }
      }
    }

    method StoreBlockData(blk: Block, blocks: map<Org, Block>, details: map<Org, OrgDetails>, newHead: ChannelHead)
      modifies this`index, this`info, this`cache, this`head, this`savedHead
      ensures Valid() && head == newHead
      ensures index == Indexed(old(index), blocks, blocks.Keys, blk.header.number)
      ensures cache == Cached(old(cache), blocks, blocks.Keys)
      ensures info == old(info)[newHead.lastFat := details]
    {
      hide Indexed, Cached;
      var todo := blocks.Keys;
      assert blocks.Keys - todo == {};
      assert index == Indexed(old(index), blocks, {}, blk.header.number) && cache == Cached(old(cache), blocks, {}) by {
        NothingEntered(index, cache, blocks, blk.header.number);
      }
      while todo != {}
        invariant todo <= blocks.Keys
        invariant index == Indexed(old(index), blocks, blocks.Keys - todo, blk.header.number)
        invariant cache == Cached(old(cache), blocks, blocks.Keys - todo)
        invariant info == old(info) && head == old(head) && savedHead == old(savedHead)
      {
        var org :| org in todo;
        var b := blocks[org];
        OneMoreEntered(old(index), old(cache), blocks, blocks.Keys - todo, org, blk.header.number);
        assert blocks.Keys - todo + {org} == blocks.Keys - (todo - {org});
        cache := cache[(org, b.header.number) := b];
        index := index[(org, b.header.number) := blk.header.number];
        todo := todo - {org};
      }
      assert blocks.Keys - {} == blocks.Keys;
      info := info[newHead.lastFat := details];
      savedHead := newHead;
      head := newHead;
    }

    /** One fat block cut up and stored; it fails where the original panics. */
    method ProcessOne(blk: Block) returns (ok: bool)
      requires Valid()
      modifies this
      ensures ledger == old(ledger)
      ensures ok <==> Processed(w, channel, ledger, old(Stored()), blk).Some?
      ensures ok ==>
                && Valid() && Some(Stored()) == Processed(w, channel, ledger, old(Stored()), blk)
                && head.lastFat == blk.header.number
                && log == old(log) + [blk.header.number]
    {
      hide Started, CanCreate, RoutedOrgs, NextBlock, NextDetails, Extended, Indexed, Cached;
      var h := StartHeads(blk);
      ghost var st0 := Stored().(head := h);
      var blocks, details, newHead;
      ok, blocks, details, newHead := CutFatBlock(w, channel, h, blk);
      if ok {
        ExtendedIsEntered(w, channel, st0, blk, blocks);
        ExtendedRest(w, channel, st0, blk);
        StoreBlockData(blk, blocks, details, newHead);
        log := log + [blk.header.number];
      }
    }

    /** Catching up: the blocks before the latest are taken from the ledger. */
    method SyncOrderer(latest: nat, next: nat) returns (ok: bool)
      requires Valid() && next <= latest <= |ledger| && Numbered(ledger)
      modifies this
      ensures ledger == old(ledger)
      ensures ok <==> Folded(w, channel, ledger, old(Stored()), next, latest).Some?
      ensures ok ==>
                && Valid() && Some(Stored()) == Folded(w, channel, ledger, old(Stored()), next, latest)
                && log == old(log) + Range(next, latest)
                && (next < latest ==> head.lastFat == latest - 1)
    {
      hide Processed, Folded, Range, Numbered;
      ghost var st := Stored();
      FoldedNothing(w, channel, ledger, st, next);
      for i := 0 to latest - next
        invariant Valid() && ledger == old(ledger)
        invariant Folded(w, channel, ledger, st, next, next + i) == Some(Stored())
        invariant log == old(log) + Range(next, next + i)
        invariant i > 0 ==> head.lastFat == next + i - 1
      {
        FoldedOneMore(w, channel, ledger, st, next, next + i);
        assert ledger[next + i].header.number == next + i by { NumberAt(ledger, next + i); }
        ok := ProcessOne(ledger[next + i]);
        if !ok {
          FoldedFails(w, channel, ledger, st, next, next + i + 1, latest);
          return;
        }
      }
      ok := true;
    }

    /** A turn: catch up if there is a gap, then take the block. */
    method TakeTurn(t: Turn) returns (ok: bool)
      requires Valid() && InLedger(t) && Numbered(t.ledger)
      modifies this
      ensures ok <==> AfterTurn(w, channel, old(Stored()), t).Some?
      ensures ok ==>
                && Valid() && Some(Stored()) == AfterTurn(w, channel, old(Stored()), t)
                && head.lastFat == t.number
                && log == old(log) + Handled(old(head.lastFat), t.number)
    {
      hide Processed, Folded;
      ledger := t.ledger;
      ok := true;
      if t.number != 0 && t.number > head.lastFat + 1 {
        ok := SyncOrderer(t.number, head.lastFat + 1);
      }
      if ok {
        ghost var before := log;
        ok := ProcessOne(ledger[t.number]);
        if ok && t.number > old(head.lastFat) + 1 {
          assert Range(old(head.lastFat) + 1, t.number) + [t.number] == Range(old(head.lastFat) + 1, t.number + 1);
        }
      }
    }

    method TakeTurns(turns: seq<Turn>) returns (ok: bool)
      requires Valid() && forall i | 0 <= i < |turns| :: InLedger(turns[i]) && Numbered(turns[i].ledger)
      modifies this
      ensures ok <==> AfterTurns(w, channel, old(Stored()), turns).Some?
      ensures ok ==>
                && Valid() && AfterTurns(w, channel, old(Stored()), turns) == Some(Stored())
                && log == old(log) + HandledAll(old(head.lastFat), Numbers(turns))
                && head.lastFat == if turns == [] then old(head.lastFat) else turns[|turns| - 1].number
    {
      hide AfterTurn, AfterTurns, HandledAll, Handled, Numbered;
      ghost var st, last := Stored(), head.lastFat;
      NoTurns(w, channel, st, last);
      for i := 0 to |turns|
        invariant Valid()
        invariant AfterTurns(w, channel, st, turns[..i]) == Some(Stored())
        invariant log == old(log) + HandledAll(last, Numbers(turns[..i]))
        invariant head.lastFat == if i > 0 then turns[i - 1].number else last
      {
        OneMoreTurn(w, channel, st, turns, i, last);
        ok := TakeTurn(turns[i]);
        if !ok {
          AfterTurnsFails(w, channel, st, turns, i + 1);
          return;
        }
      }
      ok := true;
      assert turns[..|turns|] == turns;
    }

    /**
     The main loop. Without any head, on a fat chain of two blocks or more, the first turn takes
     the newest block of the chain as it was found, and no incoming one.
     */
    method ProcessFatBlocks(turns: seq<Turn>) returns (ok: bool)
      requires Valid() && (turns != [] ==> |ledger| <= |turns[0].ledger|)
      requires forall i | 0 <= i < |turns| :: InLedger(turns[i]) && Numbered(turns[i].ledger)
      modifies this
      ensures ok <==> AfterLoop(w, channel, old(Stored()), old(|ledger|), turns).Some?
      ensures ok ==>
                && Valid() && AfterLoop(w, channel, old(Stored()), old(|ledger|), turns) == Some(Stored())
                && log == old(log) + LoopLog(old(Stored()), old(|ledger|), turns)
                && (turns != [] ==> Stored().head.lastFat == LoopLast(old(Stored()), old(|ledger|), turns))
    {
      hide Processed, AfterTurns, HandledAll, Numbers;
      if head.heads == map[] && |ledger| >= 2 && turns != [] {
        var next := |ledger| - 1;
        ledger := turns[0].ledger;
        assert ledger[next].header.number == next by { NumberAt(ledger, next); }
        ok := ProcessOne(ledger[next]);
        if ok {
          ok := TakeTurns(turns[1..]);
        }
      } else {
        ok := TakeTurns(turns);
      }
    }
  }

  lemma NumberAt(ledger: seq<Block>, n: nat)
    requires Numbered(ledger) && n < |ledger|
    ensures ledger[n].header.number == n
  {
  }

  lemma FoldedNothing(w: World, channel: Org, ledger: seq<Block>, st: Store, from: nat)
    requires from <= |ledger|
    ensures Folded(w, channel, ledger, st, from, from) == Some(st) && Range(from, from) == []
  {
  }

  lemma FoldedOneMore(w: World, channel: Org, ledger: seq<Block>, st: Store, from: nat, n: nat)
    requires from <= n < |ledger|
    ensures var before := Folded(w, channel, ledger, st, from, n);
            Folded(w, channel, ledger, st, from, n + 1)
            == if before.None? then None else Processed(w, channel, ledger, before.value, ledger[n])
    ensures Range(from, n + 1) == Range(from, n) + [n]
  {
    hide Processed;
  }

  lemma NoTurns(w: World, channel: Org, st: Store, last: nat)
    ensures AfterTurns(w, channel, st, []) == Some(st) && HandledAll(last, Numbers([])) == []
  {
  }

  lemma OneMoreTurn(w: World, channel: Org, st: Store, turns: seq<Turn>, i: nat, last: nat)
    requires i < |turns| && forall k | 0 <= k < |turns| :: InLedger(turns[k])
    ensures var before := AfterTurns(w, channel, st, turns[..i]);
            AfterTurns(w, channel, st, turns[..i + 1])
            == if before.None? then None else AfterTurn(w, channel, before.value, turns[i])
    ensures HandledAll(last, Numbers(turns[..i + 1]))
            == HandledAll(last, Numbers(turns[..i]))
             + Handled(if i > 0 then turns[i - 1].number else last, turns[i].number)
  {
    hide AfterTurn, Handled;
    assert turns[..i + 1][..i] == turns[..i];
    assert Numbers(turns[..i + 1])[..i] == Numbers(turns[..i]);
  }

  /** Without any head, on a fat chain of two blocks or more, the first block is not an incoming one. */
  predicate Starts(st: Store, found: nat) {
    st.head.heads == map[] && found >= 2
  }

  function AfterLoop(w: World, channel: Org, st: Store, found: nat, turns: seq<Turn>): Option<Store>
    requires turns != [] ==> found <= |turns[0].ledger|
    requires forall i | 0 <= i < |turns| :: InLedger(turns[i])
  {
    if Starts(st, found) && turns != [] then
      var first := Processed(w, channel, turns[0].ledger, st, turns[0].ledger[found - 1]);
      if first.None? then None else AfterTurns(w, channel, first.value, turns[1..])
    else AfterTurns(w, channel, st, turns)
  }

  /** The numbers of all fat blocks taken, in order. */
  function LoopLog(st: Store, found: nat, turns: seq<Turn>): seq<nat> {
    if Starts(st, found) && turns != [] then [found - 1] + HandledAll(found - 1, Numbers(turns[1..]))
    else HandledAll(st.head.lastFat, Numbers(turns))
  }

  function LoopLast(st: Store, found: nat, turns: seq<Turn>): nat
    requires turns != []
  {
    if Starts(st, found) && |turns| == 1 then found - 1 else turns[|turns| - 1].number
  }

  lemma {:induction false} AfterTurnsFails(w: World, channel: Org, st: Store, turns: seq<Turn>, k: nat)
    requires k <= |turns| && forall i | 0 <= i < |turns| :: InLedger(turns[i])
    requires AfterTurns(w, channel, st, turns[..k]) == None
    ensures AfterTurns(w, channel, st, turns) == None
  {
    hide AfterTurn;
    if k == |turns| {
      assert turns[..k] == turns;
    } else {
      assert turns[..|turns| - 1][..k] == turns[..k];
      AfterTurnsFails(w, channel, st, turns[..|turns| - 1], k);
    }
  }

  lemma {:induction false} FoldedFails(
    w: World, channel: Org, ledger: seq<Block>, st: Store, from: nat, at: nat, end: nat)
    requires from < at <= end <= |ledger| && Folded(w, channel, ledger, st, from, at) == None
    ensures Folded(w, channel, ledger, st, from, end) == None
    decreases end
  {
    hide Processed;
    if at < end {
      FoldedFails(w, channel, ledger, st, from, at, end - 1);
    }
  }
}
