/** Splitting the envelopes of a fat block among the organisations they are routed to. */
module SparseRouting {
  import opened Common

  type Org = string

  const LITE_PEER := "lpeer"

  /**
   What routing needs to know of an envelope. An envelope whose payload, channel header or
   endorser transaction does not decode stops the generator; one that does not decode at all, is
   of another type or has no read-write set is unroutable.
   */
  datatype Tx = Undecodable | Unroutable | ConfigTx | EndorserTx(orgs: seq<Org>) | LifecycleTx

  datatype Header = Header(number: nat, previousHash: Bytes, dataHash: Bytes)

  datatype TxnInfo = TxnInfo(index: nat, status: int)

  datatype SparseTxnFilter = SparseTxnFilter(fatBlockNumber: nat, txns: seq<TxnInfo>)

  /** A new block wraps its filter in a metadata message; a rebuilt one does not. */
  datatype FilterField = NoFilter | Wrapped(filter: SparseTxnFilter) | Bare(filter: SparseTxnFilter)

  datatype Block = Block(header: Header, data: seq<Bytes>, lastConfig: Bytes, signatures: Bytes, filter: FilterField)

  /** Decoding, hashing, signing and conflict checking, none of which the model looks into. */
  datatype World = World(
    parse: Bytes -> Tx,
    configEnvelope: Bytes -> bool,
    headerHash: Header -> Bytes,
    dataHash: seq<Bytes> -> Bytes,
    status: (nat, nat) -> int,
    sign: (Header, nat) -> Bytes,
    lastConfigBytes: nat -> Bytes,
    lastConfigIndex: Block -> nat)

  predicate IsConfigBlock(w: World, blk: Block) {
    |blk.data| == 1 && w.configEnvelope(blk.data[0])
  }

  /** The organisations an envelope goes to, in order and with repetitions. */
  function Routes(w: World, channel: Org, envelope: Bytes): seq<Org> {
    match w.parse(envelope)
    case Undecodable => []
    case Unroutable => []
    case ConfigTx => [channel, LITE_PEER]
    case LifecycleTx => [channel, LITE_PEER]
    case EndorserTx(orgs) => if orgs == [] then [channel] else orgs
  }

  predicate Decodable(w: World, blk: Block) {
    forall i | 0 <= i < |blk.data| :: !w.parse(blk.data[i]).Undecodable?
  }

  datatype TxnDetails = TxnDetails(index: nat, bytes: Bytes, status: int)

  function DetailsOf(w: World, blk: Block, i: nat): TxnDetails
    requires i < |blk.data|
  {
    TxnDetails(
      i, blk.data[i],
      match w.parse(blk.data[i])
      case EndorserTx(_) => w.status(blk.header.number, i)
      case LifecycleTx => w.status(blk.header.number, i)
      case _ => 0)
  }

  function Copies(org: Org, orgs: seq<Org>): nat {
    if orgs == [] then 0
    else Copies(org, orgs[..|orgs| - 1]) + if orgs[|orgs| - 1] == org then 1 else 0
  }

  function Repeat<T>(x: T, n: nat): (r: seq<T>)
    ensures |r| == n && forall i | 0 <= i < n :: r[i] == x
  {
    seq(n, _ => x)
  }

  /** What the first `n` envelopes contribute to an organisation's block. */
  function RoutedTo(w: World, channel: Org, blk: Block, org: Org, n: nat): seq<TxnDetails>
    requires n <= |blk.data|
  {
    if n == 0 then []
    else
      RoutedTo(w, channel, blk, org, n - 1)
      + Repeat(DetailsOf(w, blk, n - 1), Copies(org, Routes(w, channel, blk.data[n - 1])))
  }

  function Routed(w: World, channel: Org, blk: Block, org: Org): seq<TxnDetails> {
    RoutedTo(w, channel, blk, org, |blk.data|)
  }

  function IndexOf(d: TxnDetails): TxnInfo {
    TxnInfo(d.index, d.status)
  }

  function Infos(ds: seq<TxnDetails>): (r: seq<TxnInfo>)
    ensures |r| == |ds|
  {
    seq(|ds|, i requires 0 <= i < |ds| => IndexOf(ds[i]))
  }

  function IndexList(ds: seq<TxnDetails>): (r: seq<nat>)
    ensures |r| == |ds|
  {
    seq(|ds|, i requires 0 <= i < |ds| => ds[i].index)
  }

  function Payloads(ds: seq<TxnDetails>): (r: seq<Bytes>)
    ensures |r| == |ds|
  {
    seq(|ds|, i requires 0 <= i < |ds| => ds[i].bytes)
  }

  type Envelopes = map<Org, seq<TxnDetails>>

  type Filters = map<Org, SparseTxnFilter>

  function EnvelopesFor(m: Envelopes, org: Org): seq<TxnDetails> {
    if org in m then m[org] else []
  }

  /** The map lists an organisation just if something was routed to it. */
  predicate ListsExactly(m: Envelopes) {
    forall org | org in m :: m[org] != []
  }

  /** The filter of an organisation names the same envelopes, position by position. */
  predicate FiltersAgree(m: Envelopes, filters: Filters, number: nat) {
    && filters.Keys == m.Keys
    && forall org | org in m :: filters[org] == SparseTxnFilter(number, Infos(m[org]))
  }

  lemma AddOne(m: Envelopes, filters: Filters, number: nat, org: Org, d: TxnDetails)
    requires ListsExactly(m) && FiltersAgree(m, filters, number)
    ensures var m' := m[org := EnvelopesFor(m, org) + [d]];
            var f := SparseTxnFilter(number, (if org in filters then filters[org].txns else []) + [IndexOf(d)]);
            ListsExactly(m') && FiltersAgree(m', filters[org := f], number)
  {
    assert Infos(EnvelopesFor(m, org) + [d]) == Infos(EnvelopesFor(m, org)) + [IndexOf(d)];
  }

  /** Appends one envelope to the list and the filter of each organisation in turn. */
  method AppendToEach(orgs: seq<Org>, d: TxnDetails, number: nat, m: Envelopes, filters: Filters)
    returns (m': Envelopes, filters': Filters)
    requires ListsExactly(m) && FiltersAgree(m, filters, number)
    ensures ListsExactly(m') && FiltersAgree(m', filters', number)
    ensures forall org :: EnvelopesFor(m', org) == EnvelopesFor(m, org) + Repeat(d, Copies(org, orgs))
  {
    hide FiltersAgree, ListsExactly, AppendedFor;
    m', filters' := m, filters;
    forall org ensures AppendedFor(m, m', d, orgs[..0], org) { AppendedNothing(m, d, org); }
    for j := 0 to |orgs|
      invariant ListsExactly(m') && FiltersAgree(m', filters', number)
      invariant forall org :: AppendedFor(m, m', d, orgs[..j], org)
    {
      var org := orgs[j];
      AddOne(m', filters', number, org, d);
      var f := if org in filters' then filters'[org] else SparseTxnFilter(number, []);
      assert f.fatBlockNumber == number by { FilterNumber(m', filters', number, org); }
      filters' := filters'[org := f.(txns := f.txns + [IndexOf(d)])];
      var more := m'[org := EnvelopesFor(m', org) + [d]];
      var upTo := orgs[..j + 1];
      forall o ensures AppendedFor(m, more, d, upTo, o) { AppendedMore(m, m', d, orgs, j, o); }
      m' := more;
    }
    assert orgs[..|orgs|] == orgs;
    forall org ensures EnvelopesFor(m', org) == EnvelopesFor(m, org) + Repeat(d, Copies(org, orgs)) {
      AppendedMeans(m, m', d, orgs, org);
    }
  }

  predicate AppendedFor(m: Envelopes, m': Envelopes, d: TxnDetails, orgs: seq<Org>, org: Org) {
    EnvelopesFor(m', org) == EnvelopesFor(m, org) + Repeat(d, Copies(org, orgs))
  }

  lemma AppendedMeans(m: Envelopes, m': Envelopes, d: TxnDetails, orgs: seq<Org>, org: Org)
    requires AppendedFor(m, m', d, orgs, org)
    ensures EnvelopesFor(m', org) == EnvelopesFor(m, org) + Repeat(d, Copies(org, orgs))
  {
  }

  lemma AppendedNothing(m: Envelopes, d: TxnDetails, org: Org)
    ensures AppendedFor(m, m, d, [], org)
  {
    assert EnvelopesFor(m, org) + Repeat(d, 0) == EnvelopesFor(m, org);
  }

  lemma AppendedMore(m: Envelopes, m': Envelopes, d: TxnDetails, orgs: seq<Org>, j: nat, o: Org)
    requires j < |orgs| && AppendedFor(m, m', d, orgs[..j], o)
    ensures AppendedFor(m, m'[orgs[j] := EnvelopesFor(m', orgs[j]) + [d]], d, orgs[..j + 1], o)
  {
    hide Copies, Repeat;
    CopiesMore(o, orgs, j);
    RepeatMore(d, Copies(o, orgs[..j]));
    if o == orgs[j] {
      assert EnvelopesFor(m, o) + Repeat(d, Copies(o, orgs[..j])) + [d]
          == EnvelopesFor(m, o) + (Repeat(d, Copies(o, orgs[..j])) + [d]);
    }
  }

  lemma CopiesMore(o: Org, orgs: seq<Org>, j: nat)
    requires j < |orgs|
    ensures Copies(o, orgs[..j + 1]) == Copies(o, orgs[..j]) + if orgs[j] == o then 1 else 0
  {
    assert orgs[..j + 1][..j] == orgs[..j];
  }

  lemma RepeatMore(d: TxnDetails, n: nat)
    ensures Repeat(d, n) + [d] == Repeat(d, n + 1)
  {
  }

  lemma FilterNumber(m: Envelopes, filters: Filters, number: nat, org: Org)
    requires FiltersAgree(m, filters, number)
    ensures org in filters ==> filters[org].fatBlockNumber == number
  {
  }

  predicate CollectedFor(w: World, channel: Org, blk: Block, m: Envelopes, i: nat, org: Org)
    requires i <= |blk.data|
  {
    EnvelopesFor(m, org) == RoutedTo(w, channel, blk, org, i)
  }

  lemma CollectedNothing(w: World, channel: Org, blk: Block)
    ensures ListsExactly(map[]) && FiltersAgree(map[], map[], blk.header.number)
    ensures forall org :: CollectedFor(w, channel, blk, map[], 0, org)
  {
  }

  lemma CollectedMore(w: World, channel: Org, blk: Block, m: Envelopes, m': Envelopes, i: nat, org: Org)
    requires i < |blk.data| && CollectedFor(w, channel, blk, m, i, org)
    requires EnvelopesFor(m', org)
          == EnvelopesFor(m, org) + Repeat(DetailsOf(w, blk, i), Copies(org, Routes(w, channel, blk.data[i])))
    ensures CollectedFor(w, channel, blk, m', i + 1, org)
  {
    hide DetailsOf, Copies, Repeat, Routes, EnvelopesFor;
  }

  lemma CollectedAll(w: World, channel: Org, blk: Block, m: Envelopes, org: Org)
    requires CollectedFor(w, channel, blk, m, |blk.data|, org)
    ensures EnvelopesFor(m, org) == Routed(w, channel, blk, org)
  {
    hide RoutedTo;
  }

  /** Every organisation's envelopes, in the order of the fat block, with a filter for each. */
  method AggregateOrgEnvelope(w: World, channel: Org, blk: Block) returns (ok: bool, m: Envelopes, filters: Filters)
    ensures ok <==> Decodable(w, blk)
    ensures ok ==> ListsExactly(m) && FiltersAgree(m, filters, blk.header.number)
    ensures ok ==> forall org :: EnvelopesFor(m, org) == Routed(w, channel, blk, org)
  {
    hide ListsExactly, FiltersAgree, CollectedFor, EnvelopesFor, DetailsOf, Copies, Repeat, Routes, Routed;
    m, filters := map[], map[];
    CollectedNothing(w, channel, blk);
    for i := 0 to |blk.data|
      invariant forall k | 0 <= k < i :: !w.parse(blk.data[k]).Undecodable?
      invariant ListsExactly(m) && FiltersAgree(m, filters, blk.header.number)
      invariant forall org :: CollectedFor(w, channel, blk, m, i, org)
    {
      if w.parse(blk.data[i]).Undecodable? {
        return false, m, filters;
      }
      ghost var before, next := m, i + 1;
      m, filters :=
        AppendToEach(Routes(w, channel, blk.data[i]), DetailsOf(w, blk, i), blk.header.number, m, filters);
      forall org ensures CollectedFor(w, channel, blk, m, next, org) {
        CollectedMore(w, channel, blk, before, m, i, org);
      }
    }
    forall org ensures EnvelopesFor(m, org) == Routed(w, channel, blk, org) { CollectedAll(w, channel, blk, m, org); }
    ok := true;
  }

  // ------------------------------------------------------------- what is routed where

  /**
   How often an envelope is to reach an organisation: a config or lifecycle transaction reaches
   the channel's own chain and that of the light peers, an endorser transaction the organisations
   it names as often as it names them, or the channel's own chain if it names none.
   */
  function Share(w: World, channel: Org, envelope: Bytes, org: Org): nat {
    var tx := w.parse(envelope);
    if tx.EndorserTx? && tx.orgs != [] then multiset(tx.orgs)[org]
    else
      (if org == channel && (tx.EndorserTx? || tx.ConfigTx? || tx.LifecycleTx?) then 1 else 0)
      + (if org == LITE_PEER && (tx.ConfigTx? || tx.LifecycleTx?) then 1 else 0)
  }

  lemma {:induction false} CopiesCount(org: Org, orgs: seq<Org>)
    ensures Copies(org, orgs) == multiset(orgs)[org]
  {
    if orgs != [] {
      var init, last := orgs[..|orgs| - 1], orgs[|orgs| - 1];
      CopiesCount(org, init);
      assert orgs == init + [last];
    }
  }

  lemma CopiesAreShare(w: World, channel: Org, envelope: Bytes, org: Org)
    ensures Copies(org, Routes(w, channel, envelope)) == Share(w, channel, envelope, org)
  {
    hide Copies;
    CopiesCount(org, Routes(w, channel, envelope));
  }

  /** What each entry carries: its envelope, and the verdict on conflicts unless it is a config transaction. */
  lemma RoutedCarries(w: World, channel: Org, blk: Block, org: Org, k: nat)
    requires k < |Routed(w, channel, blk, org)|
    ensures var d := Routed(w, channel, blk, org)[k];
            && d.index < |blk.data| && d.bytes == blk.data[d.index]
            && Share(w, channel, d.bytes, org) > 0
            && d.status == if w.parse(d.bytes).ConfigTx? then 0 else w.status(blk.header.number, d.index)
  {
    hide Routes, Copies, Occurrences;
    var ds := Routed(w, channel, blk, org);
    RoutedExactly(w, channel, blk, org, |blk.data|, ds[k].index);
    OccursAt(ds, ds[k].index, k);
  }

  /** An index occurs exactly if some entry has it. */
  lemma {:induction false} OccursAt(ds: seq<TxnDetails>, i: nat, k: nat)
    requires k < |ds| && ds[k].index == i
    ensures Occurrences(ds, i) > 0
  {
    if k < |ds| - 1 { OccursAt(ds[..|ds| - 1], i, k); }
  }

  lemma {:induction false} OccurringIsThere(ds: seq<TxnDetails>, i: nat) returns (k: nat)
    requires Occurrences(ds, i) > 0
    ensures k < |ds| && ds[k].index == i
  {
    k := |ds| - 1;
    if ds[k].index != i { k := OccurringIsThere(ds[..k], i); }
  }

  /** How often an index occurs. */
  function Occurrences(ds: seq<TxnDetails>, i: nat): nat {
    if ds == [] then 0
    else Occurrences(ds[..|ds| - 1], i) + if ds[|ds| - 1].index == i then 1 else 0
  }

  lemma {:induction false} OccurrencesRepeat(ds: seq<TxnDetails>, d: TxnDetails, n: nat, i: nat)
    ensures Occurrences(ds + Repeat(d, n), i) == Occurrences(ds, i) + if d.index == i then n else 0
    decreases n
  {
    if n == 0 {
      assert ds + Repeat(d, 0) == ds;
    } else {
      OccurrencesRepeat(ds, d, n - 1, i);
      var all := ds + Repeat(d, n);
      assert all[..|all| - 1] == ds + Repeat(d, n - 1);
    }
  }

  predicate InFatOrder(w: World, blk: Block, ds: seq<TxnDetails>, n: nat)
    requires n <= |blk.data|
  {
    && (forall k | 0 <= k < |ds| :: ds[k].index < n && ds[k] == DetailsOf(w, blk, ds[k].index))
    && (forall k, l | 0 <= k < l < |ds| :: ds[k].index <= ds[l].index)
  }

  lemma OrderedMore(w: World, blk: Block, ds: seq<TxnDetails>, n: nat, copies: nat)
    requires n < |blk.data| && InFatOrder(w, blk, ds, n)
    ensures InFatOrder(w, blk, ds + Repeat(DetailsOf(w, blk, n), copies), n + 1)
  {
    hide DetailsOf;
    DetailsIndex(w, blk, n);
    var all := ds + Repeat(DetailsOf(w, blk, n), copies);
    assert forall k | |ds| <= k < |all| :: all[k] == DetailsOf(w, blk, n);
  }

  lemma NothingRouted(w: World, blk: Block, i: nat)
    ensures InFatOrder(w, blk, [], 0) && Occurrences([], i) == 0
  {
  }

  /**
   An organisation's list holds the envelopes of the fat block in order, each as often as it is
   routed there.
   */
  lemma {:induction false} RoutedExactly(w: World, channel: Org, blk: Block, org: Org, n: nat, i: nat)
    requires n <= |blk.data|
    ensures var ds := RoutedTo(w, channel, blk, org, n);
            && InFatOrder(w, blk, ds, n)
            && Occurrences(ds, i) == if i < n then Share(w, channel, blk.data[i], org) else 0
  {
    hide DetailsOf, Routes, Copies, InFatOrder, Occurrences, Share;
    if n == 0 {
      NothingRouted(w, blk, i);
    } else {
      RoutedExactly(w, channel, blk, org, n - 1, i);
      var before, copies := RoutedTo(w, channel, blk, org, n - 1), Copies(org, Routes(w, channel, blk.data[n - 1]));
      OrderedMore(w, blk, before, n - 1, copies);
      DetailsIndex(w, blk, n - 1);
      OccurrencesRepeat(before, DetailsOf(w, blk, n - 1), copies, i);
      CopiesAreShare(w, channel, blk.data[n - 1], org);
    }
  }

  lemma DetailsIndex(w: World, blk: Block, i: nat)
    requires i < |blk.data|
    ensures DetailsOf(w, blk, i).index == i && DetailsOf(w, blk, i).bytes == blk.data[i]
  {
  }

  predicate Increasing(s: seq<nat>) {
    forall k, l | 0 <= k < l < |s| :: s[k] < s[l]
  }

  predicate NamedAtMostOnce(w: World, channel: Org, blk: Block, org: Org, n: nat)
    requires n <= |blk.data|
  {
    forall i | 0 <= i < n :: Copies(org, Routes(w, channel, blk.data[i])) <= 1
  }

  lemma {:induction false} CopiesInList(w: World, channel: Org, blk: Block, org: Org, n: nat, i: nat)
    requires i < n <= |blk.data| && Copies(org, Routes(w, channel, blk.data[i])) > 1
    ensures !Increasing(IndexList(RoutedTo(w, channel, blk, org, n)))
  {
    hide DetailsOf, Routes, Copies;
    var before := RoutedTo(w, channel, blk, org, n - 1);
    var ds := RoutedTo(w, channel, blk, org, n);
    if i < n - 1 {
      CopiesInList(w, channel, blk, org, n - 1, i);
      var k, l :| 0 <= k < l < |before| && IndexList(before)[k] >= IndexList(before)[l];
      assert IndexList(ds)[k] == IndexList(before)[k] && IndexList(ds)[l] == IndexList(before)[l];
    } else {
      assert ds[|before|] == ds[|before| + 1];
      assert IndexList(ds)[|before|] == IndexList(ds)[|before| + 1];
    }
  }

  /** The index list is strictly increasing exactly when no envelope names the organisation twice. */
  lemma {:induction false} IndexListIncreasing(w: World, channel: Org, blk: Block, org: Org, n: nat)
    requires n <= |blk.data|
    ensures Increasing(IndexList(RoutedTo(w, channel, blk, org, n))) <==> NamedAtMostOnce(w, channel, blk, org, n)
  {
    hide DetailsOf, Routes, Copies, Increasing, IndexList, RoutedTo, Repeat;
    if NamedAtMostOnce(w, channel, blk, org, n) {
      if n == 0 {
        assert Increasing(IndexList(RoutedTo(w, channel, blk, org, n))) by { IncreasingNothing(w, channel, blk, org); }
      } else {
        assert NamedAtMostOnce(w, channel, blk, org, n - 1);
        IndexListIncreasing(w, channel, blk, org, n - 1);
        IncreasingNext(w, channel, blk, org, n);
      }
    } else {
      var i :| 0 <= i < n && Copies(org, Routes(w, channel, blk.data[i])) > 1;
      CopiesInList(w, channel, blk, org, n, i);
    }
  }

  lemma IncreasingNothing(w: World, channel: Org, blk: Block, org: Org)
    ensures Increasing(IndexList(RoutedTo(w, channel, blk, org, 0)))
  {
  }

  lemma IncreasingNext(w: World, channel: Org, blk: Block, org: Org, n: nat)
    requires 0 < n <= |blk.data| && Copies(org, Routes(w, channel, blk.data[n - 1])) <= 1
    requires Increasing(IndexList(RoutedTo(w, channel, blk, org, n - 1)))
    ensures Increasing(IndexList(RoutedTo(w, channel, blk, org, n)))
  {
    hide DetailsOf, Routes, Copies, Increasing, IndexList, Repeat, Occurrences;
    RoutedExactly(w, channel, blk, org, n - 1, 0);
    DetailsIndex(w, blk, n - 1);
    var before := RoutedTo(w, channel, blk, org, n - 1);
    IncreasingMore(before, DetailsOf(w, blk, n - 1), Copies(org, Routes(w, channel, blk.data[n - 1])));
  }

  lemma IncreasingMore(ds: seq<TxnDetails>, d: TxnDetails, copies: nat)
    requires copies <= 1 && Increasing(IndexList(ds)) && forall k | 0 <= k < |ds| :: ds[k].index < d.index
    ensures Increasing(IndexList(ds + Repeat(d, copies)))
  {
    var old_, all := IndexList(ds), IndexList(ds + Repeat(d, copies));
    assert forall k | 0 <= k < |ds| :: all[k] == old_[k] == ds[k].index;
  }

  /** The envelopes of the fat block at the given positions. */
  function Retrieved(blk: Block, indices: seq<nat>): seq<Bytes>
    requires forall k | 0 <= k < |indices| :: indices[k] < |blk.data|
  {
    seq(|indices|, k requires 0 <= k < |indices| => blk.data[indices[k]])
  }

  /** An organisation's payload can be read back from the fat block by its index list. */
  lemma PayloadsAreRetrieved(w: World, channel: Org, blk: Block, org: Org)
    ensures var ds := Routed(w, channel, blk, org);
            && (forall k | 0 <= k < |ds| :: IndexList(ds)[k] < |blk.data|)
            && Retrieved(blk, IndexList(ds)) == Payloads(ds)
  {
    hide DetailsOf;
    var ds := Routed(w, channel, blk, org);
    RoutedExactly(w, channel, blk, org, |blk.data|, 0);
    forall k | 0 <= k < |ds| ensures IndexList(ds)[k] < |blk.data| && blk.data[IndexList(ds)[k]] == Payloads(ds)[k] {
      DetailsIndex(w, blk, ds[k].index);
    }
  }
}
