/**
 Per-organisation chains cut out of a fat chain: how a fat block extends them, how their blocks
 are stored and rebuilt, and what every processed block keeps.
 */
module SparseChain {
  import opened Common
  import opened SparseRouting

  datatype Head = Head(lastNum: nat, lastHash: Bytes, sourceFat: nat, lastConfig: nat)

  datatype ChannelHead = ChannelHead(lastFat: nat, heads: map<Org, Head>)

  /** What is kept of an organisation's block besides the fat block it came from. */
  datatype OrgDetails = OrgDetails(
    number: nat, hash: Bytes, indices: seq<nat>, previousHash: Bytes,
    lastConfigNum: nat, filter: SparseTxnFilter, lastConfig: Bytes, signature: Bytes)

  datatype Store = Store(
    head: ChannelHead,
    index: map<(Org, nat), nat>,
    info: map<nat, map<Org, OrgDetails>>,
    cache: map<(Org, nat), Block>,
    savePoint: Option<nat>)

  const EMPTY_STORE := Store(ChannelHead(0, map[]), map[], map[], map[], None)

  // ------------------------------------------------------------ extending the chains

  /**
   Without any head, a first block other than the genesis block is the switch from the fat chain:
   the block before the newest one is the save point, from which two chains start.
   */
  function Started(w: World, channel: Org, ledger: seq<Block>, st: Store, blk: Block): Store {
    if st.head.heads != map[] then st
    else if blk.header.number == 0 || |ledger| < 2 then st.(head := ChannelHead(0, map[]))
    else
      var savePoint := |ledger| - 2;
      var last := ledger[savePoint];
      var lastConfig := if IsConfigBlock(w, last) then blk.header.number else w.lastConfigIndex(last);
      var head := Head(savePoint, w.headerHash(last.header), savePoint, lastConfig);
      st.(head := ChannelHead(savePoint, map[channel := head, LITE_PEER := head]), savePoint := Some(savePoint))
  }

  function RoutedOrgs(w: World, channel: Org, blk: Block): set<Org> {
    set i, org | 0 <= i < |blk.data| && org in Routes(w, channel, blk.data[i]) :: org
  }

  /** An organisation gets a block exactly when something was routed to it. */
  lemma {:induction false} RoutedExactlyWhen(w: World, channel: Org, blk: Block, org: Org)
    ensures org in RoutedOrgs(w, channel, blk) <==> Routed(w, channel, blk, org) != []
  {
    RoutedUpTo(w, channel, blk, org, |blk.data|);
  }

  lemma {:induction false} RoutedUpTo(w: World, channel: Org, blk: Block, org: Org, n: nat)
    requires n <= |blk.data|
    ensures RoutedTo(w, channel, blk, org, n) != []
       <==> exists i :: 0 <= i < n && org in Routes(w, channel, blk.data[i])
  {
    hide DetailsOf, Routes, Copies;
    if n > 0 {
      RoutedUpTo(w, channel, blk, org, n - 1);
      CopiesPositive(org, Routes(w, channel, blk.data[n - 1]));
    }
  }

  lemma {:induction false} CopiesPositive(org: Org, orgs: seq<Org>)
    ensures Copies(org, orgs) > 0 <==> org in orgs
  {
    if orgs != [] {
      CopiesPositive(org, orgs[..|orgs| - 1]);
      assert orgs == orgs[..|orgs| - 1] + [orgs[|orgs| - 1]];
    }
  }

  /**
   The generator panics at an envelope it cannot decode and, outside a config block, at a routed
   organisation without a head.
   */
  predicate CanCreate(w: World, channel: Org, head: ChannelHead, blk: Block) {
    && Decodable(w, blk)
    && (IsConfigBlock(w, blk) || forall org | org in RoutedOrgs(w, channel, blk) :: org in head.heads)
  }

  function NextNumber(head: ChannelHead, org: Org): nat {
    if org in head.heads then head.heads[org].lastNum + 1 else 0
  }

  function PreviousHash(head: ChannelHead, org: Org): Bytes {
    if org in head.heads then head.heads[org].lastHash else ""
  }

  function NextHeader(w: World, channel: Org, head: ChannelHead, blk: Block, org: Org): Header {
    Header(NextNumber(head, org), PreviousHash(head, org), w.dataHash(Payloads(Routed(w, channel, blk, org))))
  }

  function LastConfigOf(w: World, head: ChannelHead, blk: Block, org: Org): nat
    requires IsConfigBlock(w, blk) || org in head.heads
  {
    if IsConfigBlock(w, blk) then NextNumber(head, org) else head.heads[org].lastConfig
  }

  function FilterOf(w: World, channel: Org, blk: Block, org: Org): SparseTxnFilter {
    SparseTxnFilter(blk.header.number, Infos(Routed(w, channel, blk, org)))
  }

  /** The next block of an organisation's chain. */
  function NextBlock(w: World, channel: Org, head: ChannelHead, blk: Block, org: Org): Block
    requires IsConfigBlock(w, blk) || org in head.heads
  {
    var header, lastConfig := NextHeader(w, channel, head, blk, org), LastConfigOf(w, head, blk, org);
    Block(
      header, Payloads(Routed(w, channel, blk, org)),
      w.lastConfigBytes(lastConfig), w.sign(header, lastConfig), Wrapped(FilterOf(w, channel, blk, org)))
  }

  function NextDetails(w: World, channel: Org, head: ChannelHead, blk: Block, org: Org): OrgDetails
    requires IsConfigBlock(w, blk) || org in head.heads
  {
    var header, lastConfig := NextHeader(w, channel, head, blk, org), LastConfigOf(w, head, blk, org);
    OrgDetails(
      header.number, header.dataHash, IndexList(Routed(w, channel, blk, org)), header.previousHash,
      lastConfig, FilterOf(w, channel, blk, org), w.lastConfigBytes(lastConfig), w.sign(header, lastConfig))
  }

  function NextHead(w: World, channel: Org, head: ChannelHead, blk: Block, org: Org): Head
    requires IsConfigBlock(w, blk) || org in head.heads
  {
    var header := NextHeader(w, channel, head, blk, org);
    Head(header.number, w.headerHash(header), blk.header.number, LastConfigOf(w, head, blk, org))
  }

  /** A fat block cut up and stored, the heads moved on. */
  function Extended(w: World, channel: Org, st: Store, blk: Block): Store
    requires CanCreate(w, channel, st.head, blk)
  {
    var orgs, head := RoutedOrgs(w, channel, blk), st.head;
    Store(
      ChannelHead(blk.header.number, head.heads + map org | org in orgs :: NextHead(w, channel, head, blk, org)),
      st.index + map org | org in orgs :: (org, NextNumber(head, org)) := blk.header.number,
      st.info[blk.header.number := map org | org in orgs :: NextDetails(w, channel, head, blk, org)],
      st.cache + map org | org in orgs :: (org, NextNumber(head, org)) := NextBlock(w, channel, head, blk, org),
      st.savePoint)
  }

  /** One fat block processed; None stands for the panic. */
  function Processed(w: World, channel: Org, ledger: seq<Block>, st: Store, blk: Block): Option<Store> {
    var st0 := Started(w, channel, ledger, st, blk);
    if CanCreate(w, channel, st0.head, blk) then Some(Extended(w, channel, st0, blk)) else None
  }

  // ------------------------------------------------------------------------ serving

  function SavePoint(st: Store): nat {
    if st.savePoint.None? then 0 else st.savePoint.value
  }

  predicate InRange(indices: seq<nat>, n: nat) {
    forall k | 0 <= k < |indices| :: indices[k] < n
  }

  /** A block put together again from its details and the fat block it came from. */
  function Assembled(d: OrgDetails, fat: Block): Block
    requires InRange(d.indices, |fat.data|)
  {
    Block(
      Header(d.number, d.previousHash, d.hash), Retrieved(fat, d.indices), d.lastConfig, d.signature, Bare(d.filter))
  }

  /** The block with a number: cached, from the fat chain up to the save point, or rebuilt. */
  function Retrieve(ledger: seq<Block>, st: Store, org: Org, n: nat): Option<Block> {
    if (org, n) in st.cache then Some(st.cache[(org, n)])
    else if n <= SavePoint(st) then
      if n < |ledger| then Some(ledger[n]) else None
    else Rebuilt(ledger, st, org, n)
  }

  function Rebuilt(ledger: seq<Block>, st: Store, org: Org, n: nat): Option<Block> {
    if (org, n) !in st.index then None
    else
      var f := st.index[(org, n)];
      if f in st.info && org in st.info[f] && f < |ledger| && InRange(st.info[f][org].indices, |ledger[f].data|) then
        Some(Assembled(st.info[f][org], ledger[f]))
      else None
  }

  function Height(st: Store, org: Org): nat {
    NextNumber(st.head, org)
  }

  // --------------------------------------------------------------------- invariants

  /** All blocks ever made for an organisation; `first` is the number of the first of them. */
  datatype OrgHistory = OrgHistory(first: nat, blocks: seq<Block>)

  /** The filter in a block's metadata, wrapped or not. */
  function FilterIn(b: Block): Option<SparseTxnFilter> {
    match b.filter
    case NoFilter => None
    case Wrapped(f) => Some(f)
    case Bare(f) => Some(f)
  }

  /** Equal but for the wrapping of the filter. */
  predicate SameContent(b: Block, c: Block) {
    && b.header == c.header && b.data == c.data && b.lastConfig == c.lastConfig && b.signatures == c.signatures
    && FilterIn(b) == FilterIn(c)
  }

  /** The index and the fat block suffice to make the block again. */
  predicate StoredAt(ledger: seq<Block>, st: Store, org: Org, b: Block) {
    && (org, b.header.number) in st.index
    && st.index[(org, b.header.number)] <= st.head.lastFat
    && Rebuilt(ledger, st, org, b.header.number).Some?
    && SameContent(Rebuilt(ledger, st, org, b.header.number).value, b)
  }

  /** The blocks are numbered without a gap, and each carries the hash of its data and of the one before. */
  predicate Linked(w: World, h: OrgHistory) {
    forall i | 0 <= i < |h.blocks| ::
      && h.blocks[i].header.number == h.first + i
      && h.blocks[i].header.dataHash == w.dataHash(h.blocks[i].data)
      && (i > 0 ==> h.blocks[i].header.previousHash == w.headerHash(h.blocks[i - 1].header))
  }

  /** A chain starts at zero, or right after the save point and linked to it. */
  predicate StartsWell(w: World, ledger: seq<Block>, st: Store, h: OrgHistory) {
    if h.first == 0 then h.blocks != [] && h.blocks[0].header.previousHash == ""
    else
      && st.savePoint == Some(h.first - 1) && h.first <= |ledger|
      && (h.blocks != [] ==> h.blocks[0].header.previousHash == w.headerHash(ledger[h.first - 1].header))
  }

  /** The head describes the last block, or the save point while there is none. */
  predicate HeadDescribes(w: World, ledger: seq<Block>, st: Store, org: Org, h: OrgHistory) {
    && org in st.head.heads
    && st.head.heads[org].lastNum + 1 == h.first + |h.blocks|
    && (h.blocks != [] ==>
          && st.head.heads[org].lastHash == w.headerHash(h.blocks[|h.blocks| - 1].header)
          && (org, st.head.heads[org].lastNum) in st.index
          && st.head.heads[org].sourceFat == st.index[(org, st.head.heads[org].lastNum)])
    && (h.blocks == [] ==>
          && 0 < h.first <= |ledger| && st.head.heads[org].sourceFat == h.first - 1
          && st.head.heads[org].lastHash == w.headerHash(ledger[h.first - 1].header))
  }

  predicate OrgOk(w: World, ledger: seq<Block>, st: Store, org: Org, h: OrgHistory) {
    && Linked(w, h)
    && StartsWell(w, ledger, st, h)
    && HeadDescribes(w, ledger, st, org, h)
    && forall i | 0 <= i < |h.blocks| :: StoredAt(ledger, st, org, h.blocks[i])
  }

  type History = map<Org, OrgHistory>

  predicate CachedOk(st: Store, hist: History) {
    forall k | k in st.cache :: CachedAt(st, hist, k)
  }

  /** A cached block is the one that was made under its number. */
  predicate CachedAt(st: Store, hist: History, k: (Org, nat))
    requires k in st.cache
  {
    && k.0 in hist && hist[k.0].first <= k.1 < hist[k.0].first + |hist[k.0].blocks|
    && st.cache[k] == hist[k.0].blocks[k.1 - hist[k.0].first]
  }

  /** What every step keeps. */
  predicate Inv(w: World, ledger: seq<Block>, st: Store, hist: History) {
    && hist.Keys == st.head.heads.Keys
    && (forall org | org in hist :: OrgOk(w, ledger, st, org, hist[org]))
    && CachedOk(st, hist)
    && (forall f | f in st.info :: f <= st.head.lastFat)
    && (st.head.heads == map[] ==> st.savePoint == None && st.head.lastFat == 0)
    && SavePointWritten(ledger, st)
  }

  predicate SavePointWritten(ledger: seq<Block>, st: Store) {
    st.savePoint.Some? ==> st.savePoint.value < |ledger|
  }

  predicate LedgerOk(w: World, ledger: seq<Block>) {
    && (forall i | 0 <= i < |ledger| :: ledger[i].header.number == i)
    && (forall i | 0 < i < |ledger| :: ledger[i].header.previousHash == w.headerHash(ledger[i - 1].header))
    && (forall i | 0 <= i < |ledger| :: ledger[i].header.dataHash == w.dataHash(ledger[i].data))
    && (ledger != [] ==> ledger[0].header.previousHash == "")
  }

  /** Fat blocks are taken in increasing order. */
  predicate InOrder(st: Store, n: nat) {
    st.head.heads == map[] || n > st.head.lastFat
  }

  function StartedHistory(w: World, channel: Org, ledger: seq<Block>, st: Store, blk: Block, hist: History): History {
    if st.head.heads != map[] || blk.header.number == 0 || |ledger| < 2 then hist
    else map[channel := OrgHistory(|ledger| - 1, []), LITE_PEER := OrgHistory(|ledger| - 1, [])]
  }

  lemma StartedInv(w: World, channel: Org, ledger: seq<Block>, st: Store, blk: Block, hist: History)
    requires Inv(w, ledger, st, hist)
    ensures var st0 := Started(w, channel, ledger, st, blk);
            var hist0 := StartedHistory(w, channel, ledger, st, blk, hist);
            && hist0.Keys == st0.head.heads.Keys
            && (forall org | org in hist0 :: OrgOk(w, ledger, st0, org, hist0[org]))
            && CachedOk(st0, hist0) && st0.info == st.info && st0.index == st.index
            && SavePointWritten(ledger, st0)
            && (st.head.heads == map[] ==> forall org | org in hist0 :: hist0[org].blocks == [])
            && (st.head.heads != map[] ==> st0 == st && hist0 == hist)
  {
    hide StoredAt, OrgOk;
    if st.head.heads == map[] {
      assert hist.Keys == {};
      assert forall k | k in st.cache :: k.0 in hist;
      var st0, hist0 := Started(w, channel, ledger, st, blk), StartedHistory(w, channel, ledger, st, blk, hist);
      forall org | org in hist0 ensures OrgOk(w, ledger, st0, org, hist0[org]) {
        StartedOrgOk(w, ledger, st0, org, hist0[org]);
      }
    }
  }

  /** A chain without a block of its own yet hangs on the save point. */
  lemma StartedOrgOk(w: World, ledger: seq<Block>, st: Store, org: Org, h: OrgHistory)
    requires h.blocks == [] && 0 < h.first <= |ledger| && st.savePoint == Some(h.first - 1)
    requires org in st.head.heads && st.head.heads[org].lastNum == st.head.heads[org].sourceFat == h.first - 1
    requires st.head.heads[org].lastHash == w.headerHash(ledger[h.first - 1].header)
    ensures OrgOk(w, ledger, st, org, h)
  {
  }

  function ExtendedOne(hist: History, org: Org, b: Block): OrgHistory {
    if org in hist then hist[org].(blocks := hist[org].blocks + [b]) else OrgHistory(0, [b])
  }

  function ExtendedHistory(w: World, channel: Org, st: Store, blk: Block, hist: History): History
    requires CanCreate(w, channel, st.head, blk)
  {
    hist + map org | org in RoutedOrgs(w, channel, blk) ::
      ExtendedOne(hist, org, NextBlock(w, channel, st.head, blk, org))
  }

  /** What is stored for a routed organisation. */
  lemma ExtendedParts(w: World, channel: Org, st: Store, blk: Block, org: Org)
    requires CanCreate(w, channel, st.head, blk) && org in RoutedOrgs(w, channel, blk)
    ensures var k := (org, NextNumber(st.head, org));
            var st' := Extended(w, channel, st, blk);
            && k in st'.index && st'.index[k] == blk.header.number
            && k in st'.cache && st'.cache[k] == NextBlock(w, channel, st.head, blk, org)
            && blk.header.number in st'.info && org in st'.info[blk.header.number]
            && st'.info[blk.header.number][org] == NextDetails(w, channel, st.head, blk, org)
            && org in st'.head.heads && st'.head.heads[org] == NextHead(w, channel, st.head, blk, org)
            && st'.head.lastFat == blk.header.number && st'.savePoint == st.savePoint
  {
    hide RoutedOrgs, NextBlock, NextDetails, NextHead, NextNumber;
  }

  lemma DetailsRebuild(w: World, channel: Org, head: ChannelHead, blk: Block, org: Org)
    requires IsConfigBlock(w, blk) || org in head.heads
    ensures var d := NextDetails(w, channel, head, blk, org);
            InRange(d.indices, |blk.data|) && SameContent(Assembled(d, blk), NextBlock(w, channel, head, blk, org))
  {
    hide Routed, LastConfigOf, FilterOf, Payloads, IndexList, Retrieved;
    PayloadsAreRetrieved(w, channel, blk, org);
  }

  /** The new block of a routed organisation can be rebuilt from what is stored. */
  lemma NewBlockStored(w: World, channel: Org, ledger: seq<Block>, st: Store, blk: Block, org: Org)
    requires CanCreate(w, channel, st.head, blk) && org in RoutedOrgs(w, channel, blk)
    requires blk.header.number < |ledger| && ledger[blk.header.number] == blk
    ensures StoredAt(ledger, Extended(w, channel, st, blk), org, NextBlock(w, channel, st.head, blk, org))
  {
    hide RoutedOrgs, NextBlock, NextDetails, NextHead, Extended, SameContent, Assembled, InRange;
    ExtendedParts(w, channel, st, blk, org);
    DetailsRebuild(w, channel, st.head, blk, org);
    NextBlockNumber(w, channel, st.head, blk, org);
  }

  lemma NextBlockNumber(w: World, channel: Org, head: ChannelHead, blk: Block, org: Org)
    requires IsConfigBlock(w, blk) || org in head.heads
    ensures var b, h := NextBlock(w, channel, head, blk, org), NextHead(w, channel, head, blk, org);
            && b.header.number == NextNumber(head, org) == h.lastNum
            && b.header.previousHash == PreviousHash(head, org)
            && b.header.dataHash == w.dataHash(b.data)
            && h.lastHash == w.headerHash(b.header) && h.sourceFat == blk.header.number
  {
    hide Routed, LastConfigOf, FilterOf;
  }

  /** Blocks stored before stay stored: their index entries and details are not touched. */
  lemma OldBlockStored(w: World, channel: Org, ledger: seq<Block>, st: Store, blk: Block, org: Org, b: Block)
    requires CanCreate(w, channel, st.head, blk) && StoredAt(ledger, st, org, b)
    requires blk.header.number > st.head.lastFat
    requires org in RoutedOrgs(w, channel, blk) ==> b.header.number != NextNumber(st.head, org)
    ensures StoredAt(ledger, Extended(w, channel, st, blk), org, b)
  {
    hide RoutedOrgs, NextBlock, NextDetails, NextHead, NextNumber, SameContent, Assembled;
    var k, st' := (org, b.header.number), Extended(w, channel, st, blk);
    assert k in st'.index && st'.index[k] == st.index[k];
    var f := st.index[k];
    assert f in st'.info && st'.info[f] == st.info[f];
  }

  /** A chain continued by a block with the next number and the head's hash stays a chain. */
  lemma ChainContinues(w: World, ledger: seq<Block>, st: Store, st': Store, hist: History, org: Org, b: Block)
    requires org in hist <==> org in st.head.heads
    requires org in hist ==>
               && Linked(w, hist[org]) && StartsWell(w, ledger, st, hist[org])
               && HeadDescribes(w, ledger, st, org, hist[org])
    requires b.header.number == NextNumber(st.head, org) && b.header.previousHash == PreviousHash(st.head, org)
    requires b.header.dataHash == w.dataHash(b.data)
    requires st'.savePoint == st.savePoint && org in st'.head.heads
    requires st'.head.heads[org].lastNum == b.header.number && st'.head.heads[org].lastHash == w.headerHash(b.header)
    requires (org, b.header.number) in st'.index && st'.head.heads[org].sourceFat == st'.index[(org, b.header.number)]
    ensures var h := ExtendedOne(hist, org, b);
            Linked(w, h) && StartsWell(w, ledger, st', h) && HeadDescribes(w, ledger, st', org, h)
  {
  }

  lemma ExtendedOrgOk(w: World, channel: Org, ledger: seq<Block>, st: Store, blk: Block, hist: History, org: Org)
    requires CanCreate(w, channel, st.head, blk) && org in RoutedOrgs(w, channel, blk)
    requires blk.header.number < |ledger| && ledger[blk.header.number] == blk
    requires org in hist <==> org in st.head.heads
    requires org in hist ==> OrgOk(w, ledger, st, org, hist[org])
    requires org in hist && hist[org].blocks != [] ==> blk.header.number > st.head.lastFat
    ensures OrgOk(
              w, ledger, Extended(w, channel, st, blk), org,
              ExtendedOne(hist, org, NextBlock(w, channel, st.head, blk, org)))
  {
    hide RoutedOrgs, NextBlock, NextDetails, NextHead, StoredAt, Extended, StartsWell, CanCreate;
    assert IsConfigBlock(w, blk) || org in st.head.heads by { RoutedHasHead(w, channel, st.head, blk, org); }
    var b, st' := NextBlock(w, channel, st.head, blk, org), Extended(w, channel, st, blk);
    var h := ExtendedOne(hist, org, b);
    ExtendedParts(w, channel, st, blk, org);
    NextBlockNumber(w, channel, st.head, blk, org);
    NewBlockStored(w, channel, ledger, st, blk, org);
    ChainContinues(w, ledger, st, st', hist, org, b);
    forall i | 0 <= i < |h.blocks| ensures StoredAt(ledger, st', org, h.blocks[i]) {
      if i < |h.blocks| - 1 {
        assert h.blocks[i] == hist[org].blocks[i];
        OldBlockStored(w, channel, ledger, st, blk, org, h.blocks[i]);
      }
    }
  }

  lemma RoutedHasHead(w: World, channel: Org, head: ChannelHead, blk: Block, org: Org)
    requires CanCreate(w, channel, head, blk) && org in RoutedOrgs(w, channel, blk)
    ensures IsConfigBlock(w, blk) || org in head.heads
  {
    hide RoutedOrgs;
  }

  lemma OtherOrgOk(w: World, channel: Org, ledger: seq<Block>, st: Store, blk: Block, org: Org, h: OrgHistory)
    requires CanCreate(w, channel, st.head, blk) && org !in RoutedOrgs(w, channel, blk)
    requires OrgOk(w, ledger, st, org, h)
    requires h.blocks != [] ==> blk.header.number > st.head.lastFat
    ensures OrgOk(w, ledger, Extended(w, channel, st, blk), org, h)
  {
    hide RoutedOrgs, NextBlock, NextDetails, NextHead, NextNumber, StoredAt;
    var st' := Extended(w, channel, st, blk);
    assert org in st'.head.heads && st'.head.heads[org] == st.head.heads[org];
    forall i | 0 <= i < |h.blocks| ensures StoredAt(ledger, st', org, h.blocks[i]) {
      OldBlockStored(w, channel, ledger, st, blk, org, h.blocks[i]);
    }
  }

  /** What the index and the cache hold under a key afterwards. */
  lemma ExtendedAt(w: World, channel: Org, st: Store, blk: Block, k: (Org, nat))
    requires CanCreate(w, channel, st.head, blk)
    ensures var st' := Extended(w, channel, st, blk);
            var made := k.0 in RoutedOrgs(w, channel, blk) && k.1 == NextNumber(st.head, k.0);
            && (k in st'.index <==> k in st.index || made)
            && (k in st'.index ==> st'.index[k] == if made then blk.header.number else st.index[k])
            && (k in st'.cache <==> k in st.cache || made)
            && (k in st'.cache ==>
                  st'.cache[k] == if made then NextBlock(w, channel, st.head, blk, k.0) else st.cache[k])
  {
    hide RoutedOrgs, NextBlock, NextDetails, NextHead, NextNumber;
  }

  lemma ExtendedKeys(w: World, channel: Org, st: Store, blk: Block, hist: History)
    requires CanCreate(w, channel, st.head, blk)
    ensures ExtendedHistory(w, channel, st, blk, hist).Keys == hist.Keys + RoutedOrgs(w, channel, blk)
    ensures Extended(w, channel, st, blk).savePoint == st.savePoint
  {
    hide RoutedOrgs, NextBlock, NextDetails, NextHead, NextNumber, ExtendedOne;
  }

  lemma HistoryOfExtended(w: World, channel: Org, st: Store, blk: Block, hist: History, org: Org)
    requires CanCreate(w, channel, st.head, blk)
    ensures var hist' := ExtendedHistory(w, channel, st, blk, hist);
            && (org in RoutedOrgs(w, channel, blk) ==>
                  org in hist' && hist'[org] == ExtendedOne(hist, org, NextBlock(w, channel, st.head, blk, org)))
            && (org !in RoutedOrgs(w, channel, blk) && org in hist ==> org in hist' && hist'[org] == hist[org])
  {
    hide RoutedOrgs, NextBlock, ExtendedOne;
  }

  lemma ExtendedCachedAt(
    w: World, channel: Org, ledger: seq<Block>, st: Store, blk: Block, hist: History, k: (Org, nat))
    requires CanCreate(w, channel, st.head, blk) && hist.Keys == st.head.heads.Keys && CachedOk(st, hist)
    requires k.0 in hist ==> HeadDescribes(w, ledger, st, k.0, hist[k.0])
    requires k in Extended(w, channel, st, blk).cache
    ensures CachedAt(Extended(w, channel, st, blk), ExtendedHistory(w, channel, st, blk, hist), k)
  {
    hide RoutedOrgs, NextBlock, NextDetails, NextHead, Extended, ExtendedHistory, CanCreate;
    ExtendedAt(w, channel, st, blk, k);
    HistoryOfExtended(w, channel, st, blk, hist, k.0);
    if k.0 in RoutedOrgs(w, channel, blk) && k.1 == NextNumber(st.head, k.0) {
      ExtendedParts(w, channel, st, blk, k.0);
    } else {
      assert CachedAt(st, hist, k);
    }
  }

  lemma ExtendedCached(w: World, channel: Org, ledger: seq<Block>, st: Store, blk: Block, hist: History)
    requires CanCreate(w, channel, st.head, blk) && hist.Keys == st.head.heads.Keys && CachedOk(st, hist)
    requires forall org | org in hist :: HeadDescribes(w, ledger, st, org, hist[org])
    ensures CachedOk(Extended(w, channel, st, blk), ExtendedHistory(w, channel, st, blk, hist))
  {
    hide Extended, ExtendedHistory, CanCreate, HeadDescribes;
    var st', hist' := Extended(w, channel, st, blk), ExtendedHistory(w, channel, st, blk, hist);
    forall k | k in st'.cache ensures CachedAt(st', hist', k) {
      ExtendedCachedAt(w, channel, ledger, st, blk, hist, k);
    }
  }

  /** Processing a fat block in order keeps every chain as it should be. */
  lemma ProcessedInv(w: World, channel: Org, ledger: seq<Block>, st: Store, blk: Block, hist: History)
    requires Inv(w, ledger, st, hist) && InOrder(st, blk.header.number)
    requires blk.header.number < |ledger| && ledger[blk.header.number] == blk
    requires Processed(w, channel, ledger, st, blk).Some?
    ensures var st0 := Started(w, channel, ledger, st, blk);
            var hist0 := StartedHistory(w, channel, ledger, st, blk, hist);
            Inv(w, ledger, Processed(w, channel, ledger, st, blk).value, ExtendedHistory(w, channel, st0, blk, hist0))
  {
    hide RoutedOrgs, NextBlock, NextDetails, NextHead, NextNumber, OrgOk, CachedOk, Started,
      StartedHistory, ExtendedOne, CanCreate;
    var st0 := Started(w, channel, ledger, st, blk);
    var hist0 := StartedHistory(w, channel, ledger, st, blk, hist);
    var st', hist' := Extended(w, channel, st0, blk), ExtendedHistory(w, channel, st0, blk, hist0);
    StartedInv(w, channel, ledger, st, blk, hist);
    forall org | org in hist' ensures OrgOk(w, ledger, st', org, hist'[org]) {
      if org in RoutedOrgs(w, channel, blk) {
        ExtendedOrgOk(w, channel, ledger, st0, blk, hist0, org);
      } else {
        OtherOrgOk(w, channel, ledger, st0, blk, org, hist0[org]);
      }
    }
    forall org | org in hist0 ensures HeadDescribes(w, ledger, st0, org, hist0[org]) {
      OrgOkDescribes(w, ledger, st0, org, hist0[org]);
    }
    ExtendedCached(w, channel, ledger, st0, blk, hist0);
    assert hist'.Keys == st'.head.heads.Keys;
    if st'.head.heads == map[] {
      EmptyAfter(w, channel, ledger, st, blk);
    }
    forall f | f in st'.info ensures f <= st'.head.lastFat {
      if f != blk.header.number { assert f in st.info; }
    }
  }

  lemma OrgOkDescribes(w: World, ledger: seq<Block>, st: Store, org: Org, h: OrgHistory)
    requires OrgOk(w, ledger, st, org, h)
    ensures HeadDescribes(w, ledger, st, org, h)
  {
  }

  lemma EmptyAfter(w: World, channel: Org, ledger: seq<Block>, st: Store, blk: Block)
    requires CanCreate(w, channel, Started(w, channel, ledger, st, blk).head, blk)
    requires Extended(w, channel, Started(w, channel, ledger, st, blk), blk).head.heads == map[]
    requires blk.header.number < |ledger|
    ensures st.head.heads == map[] && blk.header.number == 0
    ensures Started(w, channel, ledger, st, blk).savePoint == st.savePoint
  {
    hide RoutedOrgs, NextBlock, NextDetails, NextHead, NextNumber;
    var st0 := Started(w, channel, ledger, st, blk);
    assert st0.head.heads.Keys <= Extended(w, channel, st0, blk).head.heads.Keys;
    assert st0.head.heads.Keys == {};
    assert st.head.heads == map[] && blk.header.number != 0 ==> channel in st0.head.heads;
  }
}
