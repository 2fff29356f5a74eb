/**
 The authorisation cache of one channel: its critical sections as methods of a class, and the
 interleavings of any number of requests as a step system over the same sections.
 */
module AuthCache {
  import opened Common

  type Key = string

  /**
   What the access control support returns. The cache never looks inside; `at` is the config
   sequence under which it was computed.
   */
  datatype Answer = Answer(eligible: bool, at: nat)

  /** `retained` is the product of ratio and size as the machine rounds and truncates it. */
  datatype Conf = Conf(maxCacheSize: nat, retained: int)

  /** A share of nothing is nothing, however it is rounded. */
  predicate RetainedFromSize(conf: Conf) {
    conf.maxCacheSize == 0 ==> conf.retained == 0
  }

  /** How many entries a purge evicts; a negative number never counts down to zero. */
  function EntriesToEvict(conf: Conf): int {
    conf.maxCacheSize - conf.retained
  }

  datatype Cache = Cache(lastSequence: nat, entries: map<Key, Answer>)

  predicate PurgeNeeded(conf: Conf, c: Cache) {
    |c.entries| + 1 > conf.maxCacheSize
  }

  predicate Submap(m: map<Key, Answer>, n: map<Key, Answer>) {
    forall k | k in m :: k in n && m[k] == n[k]
  }

  /** What a purge may leave behind: which entries go is up to the map iteration. */
  predicate PurgedTo(conf: Conf, c: Cache, c': Cache) {
    && c'.lastSequence == c.lastSequence
    && Submap(c'.entries, c.entries)
    && var evict := EntriesToEvict(conf);
       |c'.entries| == if 0 <= evict <= |c.entries| then |c.entries| - evict else 0
  }

  /** The critical sections of a channel's cache. */
  class AccessCache {
    const conf: Conf
    var lastSequence: nat
    var entries: map<Key, Answer>

    ghost function Value(): Cache
      reads this
    {
      Cache(lastSequence, entries)
    }

    constructor (conf: Conf)
      ensures this.conf == conf && Value() == Cache(0, map[])
    {
      this.conf, lastSequence, entries := conf, 0, map[];
    }

    method IsValid(currSeq: nat) returns (valid: bool)
      ensures valid == (currSeq == lastSequence)
    {
      valid := currSeq == lastSequence;
    }

    method ConfigChange(currSeq: nat)
      modifies this
      ensures Value() == Cache(currSeq, map[])
    {
      lastSequence := currSeq;
      entries := map[];
    }

    method Lookup(key: Key) returns (found: Option<Answer>)
      ensures found == if key in entries then Some(entries[key]) else None
    {
      found := if key in entries then Some(entries[key]) else None;
    }

    method IsPurgeNeeded() returns (needed: bool)
      ensures needed == PurgeNeeded(conf, Value())
    {
      needed := |entries| + 1 > conf.maxCacheSize;
    }

    method PurgeEntries()
      modifies this
      ensures PurgedTo(conf, old(Value()), Value())
      ensures old(|entries|) == conf.maxCacheSize && 0 <= conf.retained <= conf.maxCacheSize ==>
                |entries| == conf.retained
      ensures conf.retained > conf.maxCacheSize ==> entries == map[]
    {
      var evict := EntriesToEvict(conf);
      ghost var start := entries;
      var todo := entries.Keys;
      while todo != {}
        invariant todo == entries.Keys && lastSequence == old(lastSequence)
        invariant Submap(entries, start)
        invariant evict == EntriesToEvict(conf) - (|start| - |entries|)
        invariant |entries| <= |start|
        invariant EntriesToEvict(conf) >= 0 <==> evict >= 0
        decreases todo
      {
        if evict == 0 {
          return;
        }
        evict := evict - 1;
        var key :| key in todo;
        entries := entries - {key};
        todo := todo - {key};
        assert |todo| == |entries|;
      }
      assert |entries| == 0;
    }

    /** A purge, if there is no room for one more entry. */
    method PurgeEntriesIfNeeded()
      modifies this
      ensures lastSequence == old(lastSequence) && Submap(entries, old(entries))
      ensures old(|entries|) < conf.maxCacheSize ==> entries == old(entries)
      ensures old(|entries|) == conf.maxCacheSize && 0 <= conf.retained <= conf.maxCacheSize ==>
                |entries| == conf.retained
      ensures conf.maxCacheSize >= 1 && conf.retained != conf.maxCacheSize && old(|entries|) <= conf.maxCacheSize ==>
                |entries| < conf.maxCacheSize
    {
      var needed := IsPurgeNeeded();
      if needed {
        PurgeEntries();
      }
    }

    method Store(key: Key, answer: Answer)
      modifies this
      ensures Value() == old(Value()).(entries := old(entries)[key := answer])
    {
      entries := entries[key := answer];
    }

    /**
     A whole request that no other one disturbs; the sequence is read again before storing. What is
     left of the entries of the same sequence is all of them while there is room for one more, and
     as many as are retained once the cache is full.
     */
    method EligibleForService(key: Key, currSeq: nat, computed: Answer, laterSeq: nat)
      returns (answer: Answer, ghost kept: map<Key, Answer>)
      modifies this
      ensures old(lastSequence == currSeq && key in entries) ==>
                answer == old(entries)[key] && Value() == old(Value())
      ensures !old(lastSequence == currSeq && key in entries) ==>
                var before := if old(lastSequence) == currSeq then old(entries) else map[];
                && answer == computed && lastSequence == currSeq
                && entries == (if laterSeq == currSeq then kept[key := computed] else kept)
                && Submap(kept, before)
                && (|before| < conf.maxCacheSize ==> kept == before)
                && (|before| == conf.maxCacheSize && 0 <= conf.retained <= conf.maxCacheSize ==>
                      |kept| == conf.retained)
      ensures conf.maxCacheSize >= 1 && conf.retained != conf.maxCacheSize && old(|entries|) <= conf.maxCacheSize ==>
                |entries| <= conf.maxCacheSize
    {
      hide Submap;
      var valid := IsValid(currSeq);
      if valid {
        var found := Lookup(key);
        if found.Some? {
          return found.value, entries;
        }
      } else {
        ConfigChange(currSeq);
      }
      PurgeEntriesIfNeeded();
      kept := entries;
      if currSeq == laterSeq {
        Store(key, computed);
        assert entries.Keys == kept.Keys + {key};
      }
      answer := computed;
    }
  }

  // ------------------------------------------------------------------ interleavings

  /** Where a request stands; `s` is the config sequence it read when it began. */
  datatype Request =
    | Idle
    | Began(key: Key, s: nat)
    | FoundValid(key: Key, s: nat)
    | FoundStale(key: Key, s: nat)
    | Missed(key: Key, s: nat)
    | Purging(key: Key, s: nat)
    | Computing(key: Key, s: nat)
    | Computed(key: Key, s: nat, answer: Answer)
    | Storing(key: Key, s: nat, answer: Answer)
    | Answered(key: Key, s: nat, answer: Answer, cached: bool)

  /** A request in `Storing` holds the lock; the config sequence is not under the lock. */
  datatype State = State(sequence: nat, cache: Cache, requests: seq<Request>)

  datatype System = System(conf: Conf, eligible: (Key, nat) -> bool)

  predicate Unlocked(st: State) {
    forall i | 0 <= i < |st.requests| :: !st.requests[i].Storing?
  }

  predicate Initial(st: State) {
    && st.cache == Cache(0, map[])
    && forall i | 0 <= i < |st.requests| :: st.requests[i] == Idle
  }

  function Moves(st: State, i: nat, r: Request): State
    requires i < |st.requests|
  {
    st.(requests := st.requests[i := r])
  }

  /** The config sequence moves on, at any time. */
  predicate Advance(st: State, st': State) {
    st'.sequence > st.sequence && st' == st.(sequence := st'.sequence)
  }

  predicate Begin(st: State, st': State, i: nat, key: Key)
    requires i < |st.requests|
  {
    && (st.requests[i].Idle? || st.requests[i].Answered?)
    && st' == Moves(st, i, Began(key, st.sequence))
  }

  /** One critical section, or the computation between two of them, of request `i`. */
  predicate Proceed(sys: System, st: State, st': State, i: nat)
    requires i < |st.requests|
  {
    match st.requests[i]
    case Idle => false
    case Answered(_, _, _, _) => false
    case Began(key, s) =>
      && Unlocked(st)
      && st' == Moves(st, i, if s == st.cache.lastSequence then FoundValid(key, s) else FoundStale(key, s))
    case FoundValid(key, s) =>
      && Unlocked(st)
      && st' == Moves(st, i,
                      if key in st.cache.entries then Answered(key, s, st.cache.entries[key], true)
                      else Missed(key, s))
    case FoundStale(key, s) =>
      Unlocked(st) && st' == Moves(st, i, Missed(key, s)).(cache := Cache(s, map[]))
    case Missed(key, s) =>
      && Unlocked(st)
      && st' == Moves(st, i, if PurgeNeeded(sys.conf, st.cache) then Purging(key, s) else Computing(key, s))
    case Purging(key, s) =>
      && Unlocked(st)
      && PurgedTo(sys.conf, st.cache, st'.cache)
      && st' == Moves(st, i, Computing(key, s)).(cache := st'.cache)
    case Computing(key, s) =>
      st' == Moves(st, i, Computed(key, s, Answer(sys.eligible(key, st.sequence), st.sequence)))
    case Computed(key, s, answer) =>
      && Unlocked(st)
      && st' == Moves(st, i, if s == st.sequence then Storing(key, s, answer) else Answered(key, s, answer, false))
    case Storing(key, s, answer) =>
      st' == Moves(st, i, Answered(key, s, answer, false))
             .(cache := st.cache.(entries := st.cache.entries[key := answer]))
  }

  ghost predicate Next(sys: System, st: State, st': State) {
    || Advance(st, st')
    || (exists i, key: Key | 0 <= i < |st.requests| :: Begin(st, st', i, key))
    || (exists i | 0 <= i < |st.requests| :: Proceed(sys, st, st', i))
  }

  ghost predicate Run(sys: System, trace: seq<State>) {
    && trace != [] && Initial(trace[0])
    && forall i | 0 <= i < |trace| - 1 :: Next(sys, trace[i], trace[i + 1])
  }

  // -------------------------------------------------------------------- freshness

  /** The answer is the one for this key under the sequence at which it was computed. */
  predicate Genuine(sys: System, key: Key, answer: Answer, sequence: nat) {
    answer.eligible == sys.eligible(key, answer.at) && answer.at <= sequence
  }

  predicate EntriesSince(c: Cache, s: nat) {
    forall k | k in c.entries :: c.entries[k].at >= s
  }

  predicate RequestFresh(sys: System, st: State, r: Request) {
    match r
    case Idle => true
    case Began(_, s) => s <= st.sequence
    case FoundValid(_, s) => s <= st.sequence && EntriesSince(st.cache, s)
    case FoundStale(_, s) => s <= st.sequence
    case Missed(_, s) => s <= st.sequence
    case Purging(_, s) => s <= st.sequence
    case Computing(_, s) => s <= st.sequence
    case Computed(key, s, answer) => Genuine(sys, key, answer, st.sequence) && s <= answer.at
    case Storing(key, s, answer) =>
      && Genuine(sys, key, answer, st.sequence) && answer.at == s
      && st.cache.lastSequence <= s && NoneValidAfter(st, s)
    case Answered(key, s, answer, _) => Genuine(sys, key, answer, st.sequence) && s <= answer.at
  }

  /** While an answer is being stored, no request trusts the cache for a later sequence. */
  predicate NoneValidAfter(st: State, s: nat) {
    forall i | 0 <= i < |st.requests| && st.requests[i].FoundValid? :: st.requests[i].s <= s
  }

  predicate AllFresh(sys: System, st: State) {
    forall i | 0 <= i < |st.requests| :: RequestFresh(sys, st, st.requests[i])
  }

  predicate CacheFresh(sys: System, st: State) {
    && st.cache.lastSequence <= st.sequence
    && EntriesSince(st.cache, st.cache.lastSequence)
    && forall k | k in st.cache.entries :: Genuine(sys, k, st.cache.entries[k], st.sequence)
  }

  predicate OneStoring(st: State) {
    forall i, j | 0 <= i < j < |st.requests| :: !(st.requests[i].Storing? && st.requests[j].Storing?)
  }

  /** What every step keeps. */
  predicate Fresh(sys: System, st: State) {
    CacheFresh(sys, st) && AllFresh(sys, st) && OneStoring(st)
  }

  lemma InitialFresh(sys: System, st: State)
    requires Initial(st)
    ensures Fresh(sys, st)
  {
  }

  lemma AdvanceFresh(sys: System, st: State, st': State)
    requires Fresh(sys, st) && Advance(st, st')
    ensures Fresh(sys, st')
  {
    forall i | 0 <= i < |st'.requests| ensures RequestFresh(sys, st', st'.requests[i]) {
      assert RequestFresh(sys, st, st.requests[i]);
    }
  }

  /** A request that only moves its own state keeps the others fresh. */
  lemma OthersFresh(sys: System, st: State, i: nat, r: Request)
    requires Fresh(sys, st) && i < |st.requests|
    requires r.FoundValid? ==> Unlocked(st)
    requires r.Storing? ==> Unlocked(st)
    requires RequestFresh(sys, Moves(st, i, r), r)
    ensures Fresh(sys, Moves(st, i, r))
  {
    var st' := Moves(st, i, r);
    forall j | 0 <= j < |st'.requests| ensures RequestFresh(sys, st', st'.requests[j]) {
      if j != i {
        assert RequestFresh(sys, st, st.requests[j]);
        if st.requests[j].Storing? {
          assert NoneValidAfter(st', st.requests[j].s);
        }
      }
    }
  }

  /** When the cache loses entries and nobody is storing, requests stay fresh. */
  lemma ShrinkFresh(sys: System, st: State, i: nat, r: Request, c: Cache)
    requires Fresh(sys, st) && i < |st.requests| && Unlocked(st)
    requires Submap(c.entries, st.cache.entries) && c.lastSequence <= st.sequence
    requires c.entries == map[] || c.lastSequence == st.cache.lastSequence
    requires r.Missed? || r.Computing?
    requires r.s <= st.sequence
    ensures Fresh(sys, Moves(st, i, r).(cache := c))
  {
    var st' := Moves(st, i, r).(cache := c);
    forall j | 0 <= j < |st'.requests| ensures RequestFresh(sys, st', st'.requests[j]) {
      if j != i {
        assert RequestFresh(sys, st, st.requests[j]);
      }
    }
  }

  lemma StoreFresh(sys: System, st: State, st': State, i: nat)
    requires Fresh(sys, st) && i < |st.requests| && st.requests[i].Storing? && Proceed(sys, st, st', i)
    ensures Fresh(sys, st')
  {
    assert RequestFresh(sys, st, st.requests[i]);
    forall j | 0 <= j < |st'.requests| ensures RequestFresh(sys, st', st'.requests[j]) {
      if j != i {
        assert RequestFresh(sys, st, st.requests[j]);
        assert !st.requests[j].Storing?;
      }
    }
  }

  lemma ProceedFresh(sys: System, st: State, st': State, i: nat)
    requires Fresh(sys, st) && i < |st.requests| && Proceed(sys, st, st', i)
    ensures Fresh(sys, st')
  {
    hide Fresh;
    var r := st.requests[i];
    RequestIsFresh(sys, st, i);
    match r {
      case FoundStale(key, s) => ShrinkFresh(sys, st, i, Missed(key, s), Cache(s, map[]));
      case Purging(key, s) => ShrinkFresh(sys, st, i, Computing(key, s), st'.cache);
      case Storing(_, _, _) => StoreFresh(sys, st, st', i);
      case Idle =>
      case Answered(_, _, _, _) =>
      case Began(_, _) => OthersFresh(sys, st, i, st'.requests[i]);
      case FoundValid(_, _) => OthersFresh(sys, st, i, st'.requests[i]);
      case Missed(_, _) => OthersFresh(sys, st, i, st'.requests[i]);
      case Computing(_, _) => OthersFresh(sys, st, i, st'.requests[i]);
      case Computed(_, _, _) => OthersFresh(sys, st, i, st'.requests[i]);
    }
  }

  lemma RequestIsFresh(sys: System, st: State, i: nat)
    requires Fresh(sys, st) && i < |st.requests|
    ensures RequestFresh(sys, st, st.requests[i])
    ensures CacheFresh(sys, st)
    ensures forall j | 0 <= j < |st.requests| && st.requests[j].FoundValid? :: st.requests[j].s <= st.sequence
  {
    forall j | 0 <= j < |st.requests| && st.requests[j].FoundValid? ensures st.requests[j].s <= st.sequence {
      assert RequestFresh(sys, st, st.requests[j]);
    }
  }

  lemma NextFresh(sys: System, st: State, st': State)
    requires Fresh(sys, st) && Next(sys, st, st')
    ensures Fresh(sys, st')
  {
    hide Fresh;
    if Advance(st, st') {
      AdvanceFresh(sys, st, st');
    } else if i, key: Key :| 0 <= i < |st.requests| && Begin(st, st', i, key) {
      OthersFresh(sys, st, i, Began(key, st.sequence));
    } else {
      var i :| 0 <= i < |st.requests| && Proceed(sys, st, st', i);
      ProceedFresh(sys, st, st', i);
    }
  }

  lemma {:induction false} RunFresh(sys: System, trace: seq<State>, k: nat)
    requires Run(sys, trace) && k < |trace|
    ensures Fresh(sys, trace[k])
  {
    hide Fresh, Next, Initial;
    if k == 0 {
      InitialFresh(sys, trace[0]);
    } else {
      RunFresh(sys, trace, k - 1);
      NextFresh(sys, trace[k - 1], trace[k]);
    }
  }

  /**
   In every run, whatever the interleaving, the answer a request gets, cached or not, was computed
   for its own key under a sequence no older than the one it read.
   */
  lemma AnswersAreFresh(sys: System, trace: seq<State>, k: nat, i: nat)
    requires Run(sys, trace) && k < |trace| && i < |trace[k].requests| && trace[k].requests[i].Answered?
    ensures var r := trace[k].requests[i];
            r.s <= r.answer.at <= trace[k].sequence && r.answer.eligible == sys.eligible(r.key, r.answer.at)
  {
    RunFresh(sys, trace, k);
    assert RequestFresh(sys, trace[k], trace[k].requests[i]);
  }

  // -------------------------------------------------------------- what the cache loses

  /** Entries are lost only to a newer or older sequence taking over, or to a purge. */
  lemma LossHasACause(sys: System, st: State, st': State, k: Key)
    requires Next(sys, st, st') && k in st.cache.entries && k !in st'.cache.entries
    ensures exists i | 0 <= i < |st.requests| ::
              || (st.requests[i].FoundStale? && st'.cache == Cache(st.requests[i].s, map[]))
              || (st.requests[i].Purging? && st'.cache.lastSequence == st.cache.lastSequence)
  {
    var i :| 0 <= i < |st.requests| && Proceed(sys, st, st', i);
    assert st.requests[i].FoundStale? || st.requests[i].Purging?;
  }

  /** A request goes on to purge exactly if it finds the cache full. */
  lemma PurgesExactlyWhenFull(sys: System, st: State, st': State, i: nat)
    requires i < |st.requests| && st.requests[i].Missed? && Proceed(sys, st, st', i)
    ensures st'.requests[i].Purging? <==> |st.cache.entries| >= sys.conf.maxCacheSize
    ensures st'.cache == st.cache
  {
  }

  /** A purge of a full cache leaves as many entries as are retained; one with too large a share leaves none. */
  lemma PurgeLeaves(sys: System, st: State, st': State, i: nat)
    requires i < |st.requests| && st.requests[i].Purging? && Proceed(sys, st, st', i)
    ensures Submap(st'.cache.entries, st.cache.entries)
    ensures |st.cache.entries| == sys.conf.maxCacheSize && 0 <= sys.conf.retained <= sys.conf.maxCacheSize ==>
              |st'.cache.entries| == sys.conf.retained
    ensures sys.conf.retained > sys.conf.maxCacheSize ==> st'.cache.entries == map[]
  {
  }

  // ------------------------------------------------------------ one request by itself

  /** Nobody but request `i` moves, from where it begins. */
  predicate Alone(sys: System, trace: seq<State>, i: nat, key: Key) {
    && |trace| >= 2 && i < |trace[0].requests| && Begin(trace[0], trace[1], i, key)
    && forall k | 1 <= k < |trace| - 1 :: i < |trace[k].requests| && Proceed(sys, trace[k], trace[k + 1], i)
  }

  lemma NotAnsweredBefore(sys: System, trace: seq<State>, i: nat, key: Key)
    requires Alone(sys, trace, i, key)
    ensures forall k | 1 <= k < |trace| - 1 :: i < |trace[k].requests| && !trace[k].requests[i].Answered?
  {
    forall k | 1 <= k < |trace| - 1 ensures i < |trace[k].requests| && !trace[k].requests[i].Answered? {
      assert Proceed(sys, trace[k], trace[k + 1], i);
    }
  }

  /** A key that is cached for the current sequence is answered from the cache, in two steps and without a trace. */
  lemma CachedIsServed(sys: System, trace: seq<State>, i: nat, key: Key)
    requires Alone(sys, trace, i, key) && |trace| > 3
    requires trace[0].cache.lastSequence == trace[0].sequence && key in trace[0].cache.entries
    ensures var st := trace[0];
            |trace| == 4 && trace[3] == Moves(st, i, Answered(key, st.sequence, st.cache.entries[key], true))
  {
    NotAnsweredBefore(sys, trace, i, key);
    var st, s := trace[0], trace[0].sequence;
    assert Proceed(sys, trace[1], trace[2], i);
    assert trace[2] == Moves(st, i, FoundValid(key, s));
    assert Proceed(sys, trace[2], trace[3], i);
    assert trace[3] == Moves(st, i, Answered(key, s, st.cache.entries[key], true));
  }

  /** Any other key is computed, and then in the cache. */
  lemma OthersAreComputed(sys: System, trace: seq<State>, i: nat, key: Key)
    requires Alone(sys, trace, i, key)
    requires trace[0].cache.lastSequence != trace[0].sequence || key !in trace[0].cache.entries
    requires var last := trace[|trace| - 1]; i < |last.requests| && last.requests[i].Answered?
    ensures var st, last := trace[0], trace[|trace| - 1];
            var answer := Answer(sys.eligible(key, st.sequence), st.sequence);
            && last.requests[i] == Answered(key, st.sequence, answer, false)
            && last.sequence == st.sequence && last.cache.lastSequence == st.sequence
            && key in last.cache.entries && last.cache.entries[key] == answer
  {
    var st, s := trace[0], trace[0].sequence;
    assert trace[1] == Moves(st, i, Began(key, s));
    var base := if st.cache.lastSequence == s then st.cache else Cache(s, map[]);
    assert Proceed(sys, trace[1], trace[2], i);
    assert Proceed(sys, trace[2], trace[3], i);
    assert trace[3] == Moves(st, i, Missed(key, s)).(cache := base);
    assert Proceed(sys, trace[3], trace[4], i);
    var k := if PurgeNeeded(sys.conf, base) then 5 else 4;
    if PurgeNeeded(sys.conf, base) { assert Proceed(sys, trace[4], trace[5], i); }
    ComputesAndStores(sys, trace, i, key, k);
  }

  lemma ComputesAndStores(sys: System, trace: seq<State>, i: nat, key: Key, k: nat)
    requires Alone(sys, trace, i, key) && 1 <= k < |trace| && i < |trace[k].requests|
    requires trace[k].requests[i] == Computing(key, trace[k].sequence)
    requires var last := trace[|trace| - 1]; i < |last.requests| && last.requests[i].Answered?
    ensures var st, last := trace[k], trace[|trace| - 1];
            var answer := Answer(sys.eligible(key, st.sequence), st.sequence);
            && last.requests[i] == Answered(key, st.sequence, answer, false) && last.sequence == st.sequence
            && last.cache == st.cache.(entries := st.cache.entries[key := answer])
  {
    NotAnsweredBefore(sys, trace, i, key);
    var st, s := trace[k], trace[k].sequence;
    var answer := Answer(sys.eligible(key, s), s);
    assert Proceed(sys, trace[k], trace[k + 1], i);
    assert trace[k + 1] == Moves(st, i, Computed(key, s, answer));
    assert Proceed(sys, trace[k + 1], trace[k + 2], i);
    assert trace[k + 2] == Moves(st, i, Storing(key, s, answer));
    assert Proceed(sys, trace[k + 2], trace[k + 3], i);
  }

  // -------------------------------------------------------------- size of the cache

  /** A request between its purge and its store may still add an entry. */
  predicate Pending(r: Request) {
    r.Computing? || r.Computed? || r.Storing?
  }

  function PendingCount(rs: seq<Request>): (n: nat)
    ensures n <= |rs|
  {
    if rs == [] then 0 else (if Pending(rs[0]) then 1 else 0) + PendingCount(rs[1..])
  }

  lemma {:induction false} PendingUpdate(rs: seq<Request>, i: nat, r: Request)
    requires i < |rs|
    ensures PendingCount(rs[i := r])
         == PendingCount(rs) - (if Pending(rs[i]) then 1 else 0) + (if Pending(r) then 1 else 0)
  {
    hide Pending;
    if i > 0 {
      PendingUpdate(rs[1..], i - 1, r);
      assert rs[i := r][1..] == rs[1..][i - 1 := r];
    } else {
      assert rs[i := r][1..] == rs[1..];
    }
  }

  lemma {:induction false} NotAllPending(rs: seq<Request>, i: nat)
    requires i < |rs| && !Pending(rs[i])
    ensures PendingCount(rs) <= |rs| - 1
  {
    hide Pending;
    if i > 0 {
      NotAllPending(rs[1..], i - 1);
    }
  }

  function SizeBound(sys: System, st: State): int {
    sys.conf.maxCacheSize - 1 + |st.requests|
  }

  /** Entries and requests that may still add one stay within the bound together. */
  predicate Bounded(sys: System, st: State) {
    |st.cache.entries| + PendingCount(st.requests) <= SizeBound(sys, st)
  }

  lemma ProceedBounded(sys: System, st: State, st': State, i: nat)
    requires EntriesToEvict(sys.conf) != 0 && sys.conf.maxCacheSize >= 1
    requires Bounded(sys, st) && i < |st.requests| && Proceed(sys, st, st', i)
    ensures Bounded(sys, st') && |st'.requests| == |st.requests|
  {
    hide PendingCount, EntriesToEvict;
    var r := st'.requests[i];
    assert st'.requests == st.requests[i := r];
    PendingUpdate(st.requests, i, r);
    if !Pending(st.requests[i]) {
      NotAllPending(st.requests, i);
    }
    if st.requests[i].Storing? {
      var k, a := st.requests[i].key, st.requests[i].answer;
      assert st'.cache.entries == st.cache.entries[k := a];
      assert st'.cache.entries.Keys == st.cache.entries.Keys + {k};
    }
  }

  lemma NextBounded(sys: System, st: State, st': State)
    requires EntriesToEvict(sys.conf) != 0 && sys.conf.maxCacheSize >= 1
    requires Bounded(sys, st) && Next(sys, st, st')
    ensures Bounded(sys, st') && |st'.requests| == |st.requests|
  {
    hide PendingCount, EntriesToEvict;
    if Advance(st, st') {
    } else if i, key: Key :| 0 <= i < |st.requests| && Begin(st, st', i, key) {
      PendingUpdate(st.requests, i, Began(key, st.sequence));
    } else {
      var i :| 0 <= i < |st.requests| && Proceed(sys, st, st', i);
      ProceedBounded(sys, st, st', i);
    }
  }

  lemma {:induction false} NonePending(rs: seq<Request>)
    requires forall i | 0 <= i < |rs| :: rs[i] == Idle
    ensures PendingCount(rs) == 0
  {
    if rs != [] {
      NonePending(rs[1..]);
    }
  }

  lemma {:induction false} RunBounded(sys: System, trace: seq<State>, k: nat)
    requires EntriesToEvict(sys.conf) != 0 && sys.conf.maxCacheSize >= 1
    requires Run(sys, trace) && k < |trace|
    ensures Bounded(sys, trace[k]) && |trace[k].requests| == |trace[0].requests|
  {
    hide Next, EntriesToEvict;
    if k == 0 {
      NonePending(trace[0].requests);
    } else {
      RunBounded(sys, trace, k - 1);
      NextBounded(sys, trace[k - 1], trace[k]);
    }
  }

  // ------------------------------------------- the bound holds just when purges evict

  function Unary(n: nat): Key {
    if n == 0 then "" else Unary(n - 1) + "x"
  }

  lemma {:induction false} UnaryLength(n: nat)
    ensures |Unary(n)| == n
  {
    if n > 0 {
      UnaryLength(n - 1);
    }
  }

  /** One request, nothing advancing, and the cache holding exactly the first `n` keys. */
  predicate Filled(st: State, n: nat) {
    && st.sequence == 0 && st.cache.lastSequence == 0
    && |st.requests| == 1 && (st.requests[0].Idle? || st.requests[0].Answered?)
    && |st.cache.entries| == n
    && forall k | k in st.cache.entries :: |k| < n
  }

  /** A single request misses and gets past the purge, which evicts nothing. */
  lemma FillMiss(sys: System, st: State, n: nat) returns (path: seq<State>)
    requires Filled(st, n) && EntriesToEvict(sys.conf) == 0
    ensures |path| >= 2 && path[0] == st && path[|path| - 1] == Moves(st, 0, Computing(Unary(n), 0))
    ensures forall i | 0 <= i < |path| - 1 :: Next(sys, path[i], path[i + 1])
  {
    hide EntriesToEvict;
    var key := Unary(n);
    UnaryLength(n);
    var s1, s2 := Moves(st, 0, Began(key, 0)), Moves(st, 0, FoundValid(key, 0));
    var s3, s4, s5 := Moves(st, 0, Missed(key, 0)), Moves(st, 0, Purging(key, 0)), Moves(st, 0, Computing(key, 0));
    assert Begin(st, s1, 0, key);
    assert Proceed(sys, s1, s2, 0);
    assert Proceed(sys, s2, s3, 0);
    if PurgeNeeded(sys.conf, st.cache) {
      assert Proceed(sys, s3, s4, 0);
      assert Proceed(sys, s4, s5, 0);
      path := [st, s1, s2, s3, s4, s5];
    } else {
      assert Proceed(sys, s3, s5, 0);
      path := [st, s1, s2, s3, s5];
    }
  }

  /** It then computes its answer and stores it. */
  lemma FillStore(sys: System, st: State, n: nat) returns (path: seq<State>)
    requires Filled(st, n)
    ensures |path| >= 2 && path[0] == Moves(st, 0, Computing(Unary(n), 0)) && Filled(path[|path| - 1], n + 1)
    ensures forall i | 0 <= i < |path| - 1 :: Next(sys, path[i], path[i + 1])
  {
    var key, answer := Unary(n), Answer(sys.eligible(Unary(n), 0), 0);
    UnaryLength(n);
    var s5, s6 := Moves(st, 0, Computing(key, 0)), Moves(st, 0, Computed(key, 0, answer));
    var s7 := Moves(st, 0, Storing(key, 0, answer));
    var s8 := Moves(st, 0, Answered(key, 0, answer, false)).(cache := Cache(0, st.cache.entries[key := answer]));
    assert Proceed(sys, s5, s6, 0);
    assert Proceed(sys, s6, s7, 0);
    assert Proceed(sys, s7, s8, 0);
    assert s8.cache.entries.Keys == st.cache.entries.Keys + {key};
    path := [s5, s6, s7, s8];
  }

  lemma FillOnce(sys: System, st: State, n: nat) returns (path: seq<State>)
    requires Filled(st, n) && EntriesToEvict(sys.conf) == 0
    ensures path != [] && path[0] == st && Filled(path[|path| - 1], n + 1)
    ensures forall i | 0 <= i < |path| - 1 :: Next(sys, path[i], path[i + 1])
  {
    hide EntriesToEvict, Next, Filled;
    var p := FillMiss(sys, st, n);
    var q := FillStore(sys, st, n);
    path := p + q[1..];
    forall i | 0 <= i < |path| - 1 ensures Next(sys, path[i], path[i + 1]) {
      if i >= |p| - 1 {
        assert path[i] == q[i - |p| + 1] && path[i + 1] == q[i - |p| + 2];
      }
    }
  }

  lemma {:induction false} FillUp(sys: System, n: nat) returns (trace: seq<State>)
    requires EntriesToEvict(sys.conf) == 0
    ensures Run(sys, trace) && Filled(trace[|trace| - 1], n)
  {
    hide EntriesToEvict, Next, Filled;
    if n == 0 {
      trace := [State(0, Cache(0, map[]), [Idle])];
      assert Filled(trace[0], 0) by { FilledAtStart(); }
    } else {
      var before := FillUp(sys, n - 1);
      var path := FillOnce(sys, before[|before| - 1], n - 1);
      trace := before + path[1..];
      forall i | 0 <= i < |trace| - 1 ensures Next(sys, trace[i], trace[i + 1]) {
        if i >= |before| - 1 {
          assert trace[i] == path[i - |before| + 1] && trace[i + 1] == path[i - |before| + 2];
        }
      }
    }
  }

  lemma FilledAtStart()
    ensures Filled(State(0, Cache(0, map[]), [Idle]), 0)
  {
  }

  /** In every reachable state the cache holds at most maxCacheSize - 1 entries and one per request. */
  ghost predicate SizeAlwaysBounded(sys: System) {
    forall trace: seq<State>, k | Run(sys, trace) && 0 <= k < |trace| ::
      |trace[k].cache.entries| <= SizeBound(sys, trace[k])
  }

  /** The bound holds in all runs exactly when a purge evicts something, one way or the other. */
  lemma SizeBoundedExactlyWhen(sys: System)
    requires RetainedFromSize(sys.conf)
    ensures SizeAlwaysBounded(sys) <==> sys.conf.retained != sys.conf.maxCacheSize
  {
    hide Run;
    if EntriesToEvict(sys.conf) != 0 {
      forall trace: seq<State>, k | Run(sys, trace) && 0 <= k < |trace|
        ensures |trace[k].cache.entries| <= SizeBound(sys, trace[k])
      {
        RunBounded(sys, trace, k);
      }
    } else {
      var trace := FillUp(sys, sys.conf.maxCacheSize + 1);
      assert trace != [] by { RunIsNonempty(sys, trace); }
      var last := trace[|trace| - 1];
      assert |last.cache.entries| > SizeBound(sys, last);
    }
  }

  lemma RunIsNonempty(sys: System, trace: seq<State>)
    requires Run(sys, trace)
    ensures trace != []
  {
  }
}
