/** The delivery loop and the access control of its session. */
module Deliver {
  import opened Common

  // -------------------------------------------------------------------- access control

  /** What access control would find if it looked: expiry, the config sequence, the policy's verdict. */
  datatype Look = Look(expired: bool, sequence: nat, allowed: bool)

  datatype Session = Session(lastConfigSequence: nat, usedAtLeastOnce: bool)

  const NEW_SESSION := Session(0, false)

  predicate CheckNeeded(s: Session, o: Look) {
    !s.usedAtLeastOnce || o.sequence > s.lastConfigSequence
  }

  predicate Granted(s: Session, o: Look) {
    !o.expired && (CheckNeeded(s, o) ==> o.allowed)
  }

  function Evaluated(s: Session, o: Look): Session {
    if o.expired || !CheckNeeded(s, o) then s
    else Session(if o.sequence > s.lastConfigSequence then o.sequence else s.lastConfigSequence, true)
  }

  /** What an observer sees: the sequence read, the policy checked, a block sent. */
  datatype Event = Looked(sequence: nat) | Checked(sequence: nat, passed: bool) | Sent(number: nat)

  function EvaluateTrace(s: Session, o: Look): seq<Event> {
    if o.expired then []
    else [Looked(o.sequence)] + if CheckNeeded(s, o) then [Checked(o.sequence, o.allowed)] else []
  }

  class SessionAccessControl {
    var lastConfigSequence: nat
    var usedAtLeastOnce: bool

    ghost function Model(): Session
      reads this
    {
      Session(lastConfigSequence, usedAtLeastOnce)
    }

    constructor ()
      ensures Model() == NEW_SESSION
    {
      lastConfigSequence, usedAtLeastOnce := 0, false;
    }

    method Evaluate(o: Look) returns (ok: bool, ghost trace: seq<Event>)
      modifies this
      ensures ok <==> Granted(old(Model()), o)
      ensures Model() == Evaluated(old(Model()), o) && trace == EvaluateTrace(old(Model()), o)
    {
      if o.expired {
        return false, [];
      }
      trace := [Looked(o.sequence)];
      var needed := !usedAtLeastOnce;
      if o.sequence > lastConfigSequence {
        lastConfigSequence := o.sequence;
        needed := true;
      }
      if !needed {
        return true, trace;
      }
      usedAtLeastOnce := true;
      return o.allowed, trace + [Checked(o.sequence, o.allowed)];
    }
  }

  /** A failed check is not repeated: the next look at no newer sequence is granted whatever the policy says. */
  lemma FailureIsNotRepeated(s: Session, failed: Look, next: Look)
    requires !failed.expired && !Granted(s, failed)
    ensures Granted(Evaluated(s, failed), next) <==>
              !next.expired && (next.sequence > Evaluated(s, failed).lastConfigSequence ==> next.allowed)
    ensures !next.expired && next.sequence <= failed.sequence ==> Granted(Evaluated(s, failed), next)
    ensures EvaluateTrace(s, failed) == [Looked(failed.sequence), Checked(failed.sequence, false)]
  {
    assert CheckNeeded(s, failed);
  }

  // --------------------------------------------------------------------------- the loop

  datatype Status = SUCCESS | BAD_REQUEST | FORBIDDEN | NOT_FOUND | SERVICE_UNAVAILABLE | INTERNAL_SERVER_ERROR

  datatype Position = Missing | Unset | Oldest | Newest | Specified(number: nat) | NextCommit

  datatype Request = Request(start: Position, stop: Position, failIfNotReady: bool, bestEffort: bool)

  /**
   What one turn of the loop meets: the height of the chain, a cancelled context or a consenter
   error before the cursor answers, the cursor's answer and the number of its block, access
   control, and the client.
   */
  datatype Turn = Turn(
    height: nat, cancelled: bool, errored: bool, read: Status, block: nat, look: Look, delivered: bool)

  predicate HeightsFit(turns: seq<Turn>) {
    forall i | 0 <= i < |turns| :: turns[i].height < UINT64
  }

  /** No status: the loop is still going. */
  datatype Outcome = Outcome(trace: seq<Event>, status: Option<Status>)

  function After(trace: seq<Event>, o: Outcome): Outcome {
    Outcome(trace + o.trace, o.status)
  }

  function Finished(trace: seq<Event>, status: Status): Outcome {
    Outcome(trace, Some(status))
  }

  /** The status that ends the turn before access control is asked. */
  function Stopped(r: Request, number: nat, t: Turn): Option<Status>
    requires t.height < UINT64
  {
    if r.failIfNotReady && number > MinusOne(t.height) then Some(NOT_FOUND)
    else if t.cancelled then Some(INTERNAL_SERVER_ERROR)
    else if t.errored && !r.bestEffort then Some(SERVICE_UNAVAILABLE)
    else if t.read != SUCCESS then Some(t.read)
    else None
  }

  /** The turn by itself; no status if the loop goes on. */
  function TurnOutcome(r: Request, s: Session, number: nat, stop: nat, t: Turn): Outcome
    requires t.height < UINT64
  {
    var stopped := Stopped(r, number, t);
    if stopped.Some? then Outcome([], stopped)
    else
      var trace := EvaluateTrace(s, t.look);
      if !Granted(s, t.look) then Finished(trace, FORBIDDEN)
      else if !t.delivered then Finished(trace, INTERNAL_SERVER_ERROR)
      else Outcome(trace + [Sent(t.block)], if stop == t.block then Some(SUCCESS) else None)
  }

  function Loop(r: Request, s: Session, number: nat, stop: nat, turns: seq<Turn>): Outcome
    requires HeightsFit(turns)
    decreases |turns|
  {
    if turns == [] then Outcome([], None)
    else
      var o := TurnOutcome(r, s, number, stop, turns[0]);
      if o.status.Some? then o
      else After(o.trace, Loop(r, Evaluated(s, turns[0].look), number + 1, stop, turns[1..]))
  }

  /** The last block to send, given where the cursor stands; None for a stop before the start. */
  function StopNumber(r: Request, number: nat, height: nat): Option<nat>
    requires height < UINT64
  {
    match r.stop
    case Oldest => Some(number)
    case Newest => Some(if r.start == r.stop then number else MinusOne(height))
    case Specified(n) => if n < number then None else Some(n)
    case _ => Some(0)
  }

  /** The whole request: `number` is where the cursor opens, `height` what a newest stop is taken from. */
  function Delivered(r: Request, errored: bool, first: Look, number: nat, height: nat, turns: seq<Turn>): Outcome
    requires height < UINT64 && HeightsFit(turns)
  {
    var trace := EvaluateTrace(NEW_SESSION, first);
    if errored && !r.bestEffort then Finished([], SERVICE_UNAVAILABLE)
    else if !Granted(NEW_SESSION, first) then Finished(trace, FORBIDDEN)
    else if r.start.Missing? || r.stop.Missing? then Finished(trace, BAD_REQUEST)
    else
      var stop := StopNumber(r, number, height);
      if stop.None? then Finished(trace, BAD_REQUEST)
      else After(trace, Loop(r, Evaluated(NEW_SESSION, first), number, stop.value, turns))
  }

  method DeliverBlocks(r: Request, errored: bool, first: Look, from: nat, height: nat, turns: seq<Turn>)
    returns (status: Option<Status>, sent: seq<nat>, ghost trace: seq<Event>)
    requires height < UINT64 && HeightsFit(turns)
    ensures status == Delivered(r, errored, first, from, height, turns).status
    ensures sent == Sends(Delivered(r, errored, first, from, height, turns).trace)
    ensures trace == Delivered(r, errored, first, from, height, turns).trace
  {
    sent, trace := [], [];
    if errored && !r.bestEffort {
      status := Some(SERVICE_UNAVAILABLE);
      return;
    }
    var accessControl := new SessionAccessControl();
    var ok;
    ok, trace := accessControl.Evaluate(first);
    LooksSendNothing(NEW_SESSION, first);
    if !ok {
      status := Some(FORBIDDEN);
      return;
    }
    if r.start.Missing? || r.stop.Missing? {
      status := Some(BAD_REQUEST);
      return;
    }
    var stopNum := 0;
    match r.stop {
      case Oldest => stopNum := from;
      case Newest => stopNum := if r.start == r.stop then from else MinusOne(height);
      case Specified(n) =>
        stopNum := n;
        if stopNum < from {
          status := Some(BAD_REQUEST);
          return;
        }
      case _ =>
    }
    ghost var rest;
    status, sent, rest := SendBlocks(r, accessControl, from, stopNum, turns);
    SendsJoin(trace, rest);
    trace := trace + rest;
  }

  /** One turn: the cursor is read, access control is asked again, the block is sent. */
  method TakeTurn(r: Request, accessControl: SessionAccessControl, number: nat, stopNum: nat, t: Turn)
    returns (status: Option<Status>, sent: seq<nat>, ghost trace: seq<Event>)
    requires t.height < UINT64
    modifies accessControl
    ensures Outcome(trace, status) == TurnOutcome(r, old(accessControl.Model()), number, stopNum, t)
    ensures status == None ==> accessControl.Model() == Evaluated(old(accessControl.Model()), t.look)
    ensures sent == Sends(trace)
  {
    hide EvaluateTrace, Granted, Evaluated, Sends;
    sent, trace := [], [];
    NothingSent(Outcome([], None));
    if r.failIfNotReady && number > MinusOne(t.height) {
      return Some(NOT_FOUND), sent, trace;
    }
    if t.cancelled {
      return Some(INTERNAL_SERVER_ERROR), sent, trace;
    }
    if t.errored && !r.bestEffort {
      return Some(SERVICE_UNAVAILABLE), sent, trace;
    }
    if t.read != SUCCESS {
      return Some(t.read), sent, trace;
    }
    var ok;
    LooksSendNothing(accessControl.Model(), t.look);
    SendsOfTurn(accessControl.Model(), t.look, t.block);
    ok, trace := accessControl.Evaluate(t.look);
    if !ok {
      return Some(FORBIDDEN), sent, trace;
    }
    if !t.delivered {
      return Some(INTERNAL_SERVER_ERROR), sent, trace;
    }
    sent, trace := [t.block], trace + [Sent(t.block)];
    status := if stopNum == t.block then Some(SUCCESS) else None;
  }

  method SendBlocks(r: Request, accessControl: SessionAccessControl, from: nat, stopNum: nat, turns: seq<Turn>)
    returns (status: Option<Status>, sent: seq<nat>, ghost trace: seq<Event>)
    requires HeightsFit(turns)
    modifies accessControl
    ensures Outcome(trace, status) == Loop(r, old(accessControl.Model()), from, stopNum, turns)
    ensures sent == Sends(trace)
  {
    hide Loop, TurnOutcome, Evaluated, Sends;
    var number := from;
    ghost var all := Loop(r, accessControl.Model(), from, stopNum, turns);
    sent, trace := [], [];
    NothingSent(all);
    assert turns[0..] == turns;
    for i := 0 to |turns|
      invariant number == from + i && sent == Sends(trace)
      invariant all == After(trace, Loop(r, accessControl.Model(), number, stopNum, turns[i..]))
    {
      ghost var s := accessControl.Model();
      LoopStep(r, s, number, stopNum, turns, i);
      var now;
      ghost var step;
      status, now, step := TakeTurn(r, accessControl, number, stopNum, turns[i]);
      SendsJoin(trace, step);
      AfterAfter(trace, step, Loop(r, Evaluated(s, turns[i].look), number + 1, stopNum, turns[i + 1..]));
      sent, trace := sent + now, trace + step;
      if status.Some? {
        return;
      }
      number := number + 1;
    }
    status := None;
    LoopEnd(r, accessControl.Model(), number, stopNum);
    assert turns[|turns|..] == [];
    assert trace + [] == trace;
  }

  lemma NothingSent(all: Outcome)
    ensures Sends([]) == [] && After([], all) == all
  {
  }

  lemma LoopEnd(r: Request, s: Session, number: nat, stop: nat)
    ensures Loop(r, s, number, stop, []) == Outcome([], None)
  {
  }

  lemma LoopStep(r: Request, s: Session, number: nat, stop: nat, turns: seq<Turn>, i: nat)
    requires i < |turns| && HeightsFit(turns)
    ensures var o := TurnOutcome(r, s, number, stop, turns[i]);
            Loop(r, s, number, stop, turns[i..])
            == if o.status.Some? then o
               else After(o.trace, Loop(r, Evaluated(s, turns[i].look), number + 1, stop, turns[i + 1..]))
  {
    assert turns[i..][1..] == turns[i + 1..];
  }

  lemma AfterAfter(a: seq<Event>, b: seq<Event>, o: Outcome)
    ensures After(a, After(b, o)) == After(a + b, o)
  {
    assert a + (b + o.trace) == (a + b) + o.trace;
  }

  // ------------------------------------------------------------------- what it promises

  /** The numbers of the blocks sent, in order. */
  function Sends(trace: seq<Event>): seq<nat> {
    if trace == [] then []
    else
      var k := |trace| - 1;
      Sends(trace[..k]) + if trace[k].Sent? then [trace[k].number] else []
  }

  lemma {:induction false} SendsJoin(a: seq<Event>, b: seq<Event>)
    ensures Sends(a + b) == Sends(a) + Sends(b)
    decreases |b|
  {
    if b == [] {
      assert a + b == a;
    } else {
      var k := |b| - 1;
      SendsJoin(a, b[..k]);
      assert (a + b)[..|a| + k] == a + b[..k];
    }
  }

  lemma LooksSendNothing(s: Session, o: Look)
    ensures Sends(EvaluateTrace(s, o)) == []
  {
    var t := EvaluateTrace(s, o);
    if !o.expired {
      assert t[..1] == [Looked(o.sequence)] && t[..1][..0] == [];
      assert Sends(t[..1]) == [];
    }
  }

  lemma SendsOfTurn(s: Session, o: Look, number: nat)
    ensures Sends(EvaluateTrace(s, o) + [Sent(number)]) == [number]
  {
    LooksSendNothing(s, o);
    SendsJoin(EvaluateTrace(s, o), [Sent(number)]);
    assert [Sent(number)][..0] == [];
  }

  /** The numbers of the blocks the cursor gives in the first `n` turns. */
  function Blocks(turns: seq<Turn>, n: nat): (r: seq<nat>)
    requires n <= |turns|
    ensures |r| == n && forall i | 0 <= i < n :: r[i] == turns[i].block
  {
    seq(n, i requires 0 <= i < n => turns[i].block)
  }

  /** The stop block is the last one sent, and was not sent before. */
  predicate EndsAt(sent: seq<nat>, stop: nat) {
    sent != [] && sent[|sent| - 1] == stop && forall i | 0 <= i < |sent| - 1 :: sent[i] != stop
  }

  lemma EndsAtFront(n: nat, rest: seq<nat>, stop: nat)
    ensures EndsAt([n] + rest, stop) <==> if n == stop then rest == [] else EndsAt(rest, stop)
  {
    var all := [n] + rest;
    assert all[0] == n;
    assert forall i | 0 <= i < |rest| :: all[i + 1] == rest[i];
    if n != stop && EndsAt(rest, stop) {
      assert forall i | 0 < i < |all| :: all[i] == rest[i - 1];
      assert EndsAt(all, stop);
    }
  }

  /** What goes out is what the cursor gave, from the first turn on; success is sending the stop block. */
  lemma {:induction false} LoopSends(r: Request, s: Session, number: nat, stop: nat, turns: seq<Turn>)
    requires HeightsFit(turns)
    ensures var o := Loop(r, s, number, stop, turns);
            && |Sends(o.trace)| <= |turns| && Sends(o.trace) == Blocks(turns, |Sends(o.trace)|)
            && (o.status == Some(SUCCESS) <==> EndsAt(Sends(o.trace), stop))
            && (forall i | 0 <= i < |Sends(o.trace)| - 1 :: Sends(o.trace)[i] != stop)
    decreases |turns|
  {
    hide EvaluateTrace, Granted, Evaluated, Sends, EndsAt;
    NothingSent(Outcome([], None));
    assert !EndsAt([], stop) by { NothingEnds(stop); }
    if turns != [] && Stopped(r, number, turns[0]).None? {
      var look, block := turns[0].look, turns[0].block;
      LooksSendNothing(s, look);
      if Granted(s, look) && turns[0].delivered {
        SendsOfTurn(s, look, block);
        assert [block] + [] == [block];
        EndsAtFront(block, [], stop);
        if stop != block {
          LoopSends(r, Evaluated(s, look), number + 1, stop, turns[1..]);
          var rest := Loop(r, Evaluated(s, look), number + 1, stop, turns[1..]);
          SendsJoin(EvaluateTrace(s, look) + [Sent(block)], rest.trace);
          EndsAtFront(block, Sends(rest.trace), stop);
          var all := [block] + Sends(rest.trace);
          assert all == Blocks(turns, |all|);
        }
      }
    }
  }

  lemma NothingEnds(stop: nat)
    ensures !EndsAt([], stop)
  {
  }

  // -------------------------------------------------------------- who gets the blocks

  /** The config sequence read most recently. */
  function LastLooked(trace: seq<Event>): nat {
    if trace == [] then 0
    else
      var k := |trace| - 1;
      if trace[k].Looked? then trace[k].sequence else LastLooked(trace[..k])
  }

  predicate Passed(e: Event, least: nat) {
    e.Checked? && e.passed && e.sequence >= least
  }

  predicate NoneFailed(trace: seq<Event>) {
    forall q | 0 <= q < |trace| :: trace[q].Checked? ==> trace[q].passed
  }

  /** The policy has passed at a sequence no older than the one just read, and has never failed. */
  predicate Cleared(trace: seq<Event>) {
    NoneFailed(trace) && exists q :: 0 <= q < |trace| && Passed(trace[q], LastLooked(trace))
  }

  /** Every block went out to a client cleared by then. */
  predicate Secured(trace: seq<Event>) {
    forall p | 0 <= p < |trace| && trace[p].Sent? :: Cleared(trace[..p])
  }

  lemma SecuredBefore(a: seq<Event>, b: seq<Event>)
    requires Secured(a) && forall i | 0 <= i < |b| :: !b[i].Sent?
    ensures Secured(a + b)
  {
    hide Cleared;
    forall p | 0 <= p < |a + b| && (a + b)[p].Sent? ensures Cleared((a + b)[..p]) {
      assert p < |a|;
      assert (a + b)[..p] == a[..p];
    }
  }

  lemma SecuredSend(a: seq<Event>, number: nat)
    requires Secured(a) && Cleared(a)
    ensures Secured(a + [Sent(number)])
  {
    hide Cleared;
    var b := a + [Sent(number)];
    forall p | 0 <= p < |b| && b[p].Sent? ensures Cleared(b[..p]) {
      if p < |a| {
        assert b[..p] == a[..p];
      } else {
        assert b[..p] == a;
      }
    }
  }

  /** What the session remembers is on record. */
  predicate Remembers(trace: seq<Event>, s: Session) {
    && NoneFailed(trace)
    && (s.usedAtLeastOnce ==> exists q :: 0 <= q < |trace| && Passed(trace[q], s.lastConfigSequence))
    && (!s.usedAtLeastOnce ==> s.lastConfigSequence == 0)
  }

  lemma LookIsRecorded(trace: seq<Event>, s: Session, o: Look)
    requires Remembers(trace, s) && Granted(s, o)
    ensures Cleared(trace + EvaluateTrace(s, o)) && Remembers(trace + EvaluateTrace(s, o), Evaluated(s, o))
  {
    var looked := trace + [Looked(o.sequence)];
    var all := trace + EvaluateTrace(s, o);
    if CheckNeeded(s, o) {
      assert all == looked + [Checked(o.sequence, true)];
      assert all[..|looked|] == looked && LastLooked(all) == o.sequence;
      assert Passed(all[|looked|], o.sequence);
    } else {
      assert all == looked && LastLooked(all) == o.sequence;
      var q :| 0 <= q < |trace| && Passed(trace[q], s.lastConfigSequence);
      assert Passed(all[q], s.lastConfigSequence) && Passed(all[q], o.sequence);
    }
  }

  lemma SendIsRecorded(trace: seq<Event>, s: Session, number: nat)
    requires Remembers(trace, s)
    ensures Remembers(trace + [Sent(number)], s)
  {
    var all := trace + [Sent(number)];
    if s.usedAtLeastOnce {
      var q :| 0 <= q < |trace| && Passed(trace[q], s.lastConfigSequence);
      assert Passed(all[q], s.lastConfigSequence);
    }
  }

  lemma LooksDoNotSend(s: Session, o: Look)
    ensures forall i | 0 <= i < |EvaluateTrace(s, o)| :: !EvaluateTrace(s, o)[i].Sent?
  {
  }

  lemma {:induction false} LoopIsSecured(
    trace: seq<Event>, r: Request, s: Session, number: nat, stop: nat, turns: seq<Turn>)
    requires HeightsFit(turns) && Secured(trace) && Remembers(trace, s)
    ensures Secured(trace + Loop(r, s, number, stop, turns).trace)
    decreases |turns|
  {
    hide EvaluateTrace, Granted, Evaluated, Secured, Remembers, Cleared;
    if turns == [] || Stopped(r, number, turns[0]).Some? {
      assert trace + [] == trace;
    } else {
      var t := turns[0];
      var looks := EvaluateTrace(s, t.look);
      LooksDoNotSend(s, t.look);
      SecuredBefore(trace, looks);
      if Granted(s, t.look) && t.delivered {
        LookIsRecorded(trace, s, t.look);
        SecuredSend(trace + looks, t.block);
        var sent := looks + [Sent(t.block)];
        assert trace + sent == trace + looks + [Sent(t.block)];
        if stop != t.block {
          var s' := Evaluated(s, t.look);
          SendIsRecorded(trace + looks, s', t.block);
          LoopIsSecured(trace + sent, r, s', number + 1, stop, turns[1..]);
          assert trace + (sent + Loop(r, s', number + 1, stop, turns[1..]).trace)
              == trace + sent + Loop(r, s', number + 1, stop, turns[1..]).trace;
        }
      }
    }
  }

  /**
   In every delivery, each block sent is covered by a policy check that passed at a sequence as
   new as the one just read.
   */
  lemma DeliveryIsSecured(r: Request, errored: bool, first: Look, number: nat, height: nat, turns: seq<Turn>)
    requires height < UINT64 && HeightsFit(turns)
    ensures Secured(Delivered(r, errored, first, number, height, turns).trace)
  {
    hide Granted, Evaluated, Secured, Remembers, Cleared, Loop;
    var looks := EvaluateTrace(NEW_SESSION, first);
    NothingSecured();
    LooksDoNotSend(NEW_SESSION, first);
    SecuredBefore([], looks);
    assert [] + looks == looks;
    var stop := StopNumber(r, number, height);
    if Granted(NEW_SESSION, first) && stop.Some? {
      LookIsRecorded([], NEW_SESSION, first);
      LoopIsSecured(looks, r, Evaluated(NEW_SESSION, first), number, stop.value, turns);
    }
  }

  lemma NothingSecured()
    ensures Secured([]) && Remembers([], NEW_SESSION)
  {
  }

  // ------------------------------------------------------------------- what is delivered

  /** Success means that the stop block was sent, last and once; what was sent is what the cursor gave, in order. */
  lemma SuccessIsStop(r: Request, errored: bool, first: Look, number: nat, height: nat, turns: seq<Turn>)
    requires height < UINT64 && HeightsFit(turns)
    ensures var o, stop := Delivered(r, errored, first, number, height, turns), StopNumber(r, number, height);
            var sent := Sends(o.trace);
            && |sent| <= |turns| && sent == Blocks(turns, |sent|)
            && (o.status == Some(SUCCESS) <==> stop.Some? && EndsAt(sent, stop.value))
            && (stop.Some? ==> forall i | 0 <= i < |sent| - 1 :: sent[i] != stop.value)
  {
    hide Granted, Evaluated, EvaluateTrace, Loop, EndsAt;
    LooksSendNothing(NEW_SESSION, first);
    NothingSent(Outcome([], None));
    var looks, stop := EvaluateTrace(NEW_SESSION, first), StopNumber(r, number, height);
    if stop.Some? {
      var s := Evaluated(NEW_SESSION, first);
      NothingEnds(stop.value);
      LoopSends(r, s, number, stop.value, turns);
      var rest := Loop(r, s, number, stop.value, turns).trace;
      SendsJoin(looks, rest);
      assert [] + Sends(rest) == Sends(rest);
    }
  }

  /** The cursor gives the blocks of the chain one after the other from where it opened. */
  predicate InSequence(number: nat, turns: seq<Turn>) {
    forall i | 0 <= i < |turns| :: turns[i].block == number + i
  }

  /**
   With a cursor that reads in sequence, success means exactly the blocks from where it opened to
   the stop were sent, once each and in order; in every other outcome consecutive blocks from the
   start were, fewer than that when the stop is ahead.
   */
  lemma SuccessIsWhole(r: Request, errored: bool, first: Look, number: nat, height: nat, turns: seq<Turn>)
    requires height < UINT64 && HeightsFit(turns) && InSequence(number, turns)
    ensures var o, stop := Delivered(r, errored, first, number, height, turns), StopNumber(r, number, height);
            var sent := Sends(o.trace);
            && sent == Range(number, number + |sent|)
            && (o.status == Some(SUCCESS) <==>
                  stop.Some? && number <= stop.value && sent == Range(number, stop.value + 1))
            && (stop.Some? && number <= stop.value ==> |sent| <= stop.value - number + 1)
  {
    hide Delivered, StopNumber, Sends;
    SuccessIsStop(r, errored, first, number, height, turns);
    var o, stop := Delivered(r, errored, first, number, height, turns), StopNumber(r, number, height);
    var sent := Sends(o.trace);
    assert sent == Range(number, number + |sent|);
    if stop.Some? && number <= stop.value && |sent| > stop.value - number {
      assert sent[stop.value - number] == stop.value;
    }
  }

  /** Nothing goes wrong in a turn that reads a block of the chain. */
  predicate Smooth(r: Request, number: nat, t: Turn)
    requires t.height < UINT64
  {
    Stopped(r, number, t).None? && !t.look.expired && t.look.allowed && t.delivered && t.block == number
  }

  predicate AllSmooth(r: Request, number: nat, turns: seq<Turn>)
    requires HeightsFit(turns)
  {
    forall i | 0 <= i < |turns| :: Smooth(r, number + i, turns[i])
  }

  /**
   When nothing goes wrong, a delivery succeeds as soon as it has had a turn for every block, and
   never if its stop lies before its start.
   */
  lemma {:induction false} SmoothLoop(r: Request, s: Session, number: nat, stop: nat, turns: seq<Turn>)
    requires HeightsFit(turns) && AllSmooth(r, number, turns)
    ensures Loop(r, s, number, stop, turns).status
         == if number <= stop < number + |turns| then Some(SUCCESS) else None
    decreases |turns|
  {
    hide EvaluateTrace, Evaluated, Stopped;
    if turns != [] {
      assert Smooth(r, number + 0, turns[0]);
      if stop != number {
        forall i | 0 <= i < |turns| - 1 ensures Smooth(r, number + 1 + i, turns[1..][i]) {
          assert Smooth(r, number + (i + 1), turns[i + 1]);
        }
        SmoothLoop(r, Evaluated(s, turns[0].look), number + 1, stop, turns[1..]);
      }
    }
  }

  // ------------------------------------------------------------- in terms of the request

  /** The request gets as far as the loop: no consenter error that matters, a grant, both positions, a stop ahead. */
  predicate Starts(r: Request, errored: bool, first: Look, number: nat) {
    && (errored ==> r.bestEffort) && !first.expired && first.allowed
    && !r.start.Missing? && !r.stop.Missing? && (r.stop.Specified? ==> number <= r.stop.number)
  }

  /** A request that does not is answered at once, and nothing is sent. */
  lemma RefusedWith(r: Request, errored: bool, first: Look, number: nat, height: nat, turns: seq<Turn>)
    requires height < UINT64 && HeightsFit(turns) && !Starts(r, errored, first, number)
    ensures var o := Delivered(r, errored, first, number, height, turns);
            && Sends(o.trace) == []
            && (errored && !r.bestEffort ==> o.status == Some(SERVICE_UNAVAILABLE))
            && ((errored ==> r.bestEffort) && (first.expired || !first.allowed) ==> o.status == Some(FORBIDDEN))
            && ((errored ==> r.bestEffort) && !first.expired && first.allowed ==> o.status == Some(BAD_REQUEST))
  {
    hide Loop, EvaluateTrace;
    LooksSendNothing(NEW_SESSION, first);
    NothingSent(Outcome([], None));
  }

  /**
   With a cursor that reads in sequence, a request up to the newest block succeeds exactly if
   everything below the height was sent, one up to a given block exactly if everything up to it
   was, and one for the oldest or only the newest block exactly if the block the cursor opened at
   was. A stop of no kind means block zero. On an empty chain the newest block has the highest number.
   */
  lemma SuccessByRequest(r: Request, errored: bool, first: Look, number: nat, height: nat, turns: seq<Turn>)
    requires height < UINT64 && HeightsFit(turns) && InSequence(number, turns)
    ensures var o := Delivered(r, errored, first, number, height, turns);
            var sent, success := Sends(o.trace), o.status == Some(SUCCESS);
            && (r.stop.Newest? && !r.start.Newest? && height > 0 ==>
                  (success <==> number < height && sent == Range(number, height)))
            && (r.stop.Newest? && !r.start.Newest? && height == 0 ==>
                  (success <==> number < UINT64 && sent == Range(number, UINT64)))
            && (r.stop.Oldest? || (r.stop.Newest? && r.start.Newest?) ==> (success <==> sent == [number]))
            && (r.stop.Specified? ==>
                  (success <==> number <= r.stop.number && sent == Range(number, r.stop.number + 1)))
            && (r.stop.Unset? || r.stop.NextCommit? ==> (success <==> number == 0 && sent == [0]))
            && (r.stop.Missing? ==> !success)
  {
    hide Sends, Loop, EvaluateTrace;
    SuccessIsWhole(r, errored, first, number, height, turns);
    var sent := Sends(Delivered(r, errored, first, number, height, turns).trace);
    assert Range(number, number + 1) == [number];
    if !Starts(r, errored, first, number) {
      RefusedWith(r, errored, first, number, height, turns);
    }
  }

  function Max(a: nat, b: nat): nat {
    if a > b then a else b
  }

  /** The newest config sequence seen before turn `i`, after `m`. */
  function Seen(m: nat, turns: seq<Turn>, i: nat): nat
    requires i <= |turns|
  {
    if i == 0 then m else Max(Seen(m, turns, i - 1), turns[i - 1].look.sequence)
  }

  /** The client has expired, or the sequence is newer than all seen before and the policy rejects. */
  predicate Denied(m: nat, turns: seq<Turn>, i: nat)
    requires i < |turns|
  {
    turns[i].look.expired || (turns[i].look.sequence > Seen(m, turns, i) && !turns[i].look.allowed)
  }

  /** The block is not there yet; an empty chain passes for one of the greatest height. */
  predicate NotYet(number: nat, height: nat) {
    number >= if height == 0 then UINT64 else height
  }

  /** Nothing in turn `i` keeps its block from being sent. */
  predicate Clean(r: Request, m: nat, number: nat, turns: seq<Turn>, i: nat)
    requires i < |turns|
  {
    var t := turns[i];
    && (r.failIfNotReady ==> !NotYet(number + i, t.height))
    && !t.cancelled && (t.errored ==> r.bestEffort) && t.read == SUCCESS
    && !Denied(m, turns, i) && t.delivered
  }

  /** Why a turn ends a delivery with a status other than success. */
  predicate Causes(r: Request, m: nat, number: nat, turns: seq<Turn>, i: nat, status: Status)
    requires i < |turns|
  {
    var t := turns[i];
    status != SUCCESS &&
    (|| (status == t.read)
     || (status == NOT_FOUND && r.failIfNotReady && NotYet(number + i, t.height))
     || (status == SERVICE_UNAVAILABLE && t.errored && !r.bestEffort)
     || (status == FORBIDDEN && Denied(m, turns, i))
     || (status == INTERNAL_SERVER_ERROR && (t.cancelled || !t.delivered)))
  }

  /** The loop goes on as long as turns are clean and the stop is not sent, and then ends for a cause. */
  predicate EndsAsItShould(r: Request, m: nat, number: nat, stop: nat, turns: seq<Turn>, o: Outcome) {
    var k := |Sends(o.trace)|;
    && k <= |turns|
    && (forall i | 0 <= i < k :: Clean(r, m, number, turns, i))
    && (forall i | 0 <= i < k - 1 :: turns[i].block != stop)
    && match o.status
       case None => k == |turns| && (k > 0 ==> turns[k - 1].block != stop)
       case Some(SUCCESS) => k > 0 && turns[k - 1].block == stop
       case Some(status) =>
         && k < |turns| && (k > 0 ==> turns[k - 1].block != stop)
         && !Clean(r, m, number, turns, k) && Causes(r, m, number, turns, k, status)
  }

  lemma {:induction false} SeenLater(m: nat, turns: seq<Turn>, i: nat)
    requires i < |turns|
    ensures Seen(m, turns, i + 1) == Seen(Max(m, turns[0].look.sequence), turns[1..], i)
  {
    if i > 0 { SeenLater(m, turns, i - 1); }
  }

  lemma LaterTurn(r: Request, m: nat, number: nat, turns: seq<Turn>, i: nat, status: Status)
    requires i + 1 < |turns|
    ensures var m' := Max(m, turns[0].look.sequence);
            && (Clean(r, m, number, turns, i + 1) <==> Clean(r, m', number + 1, turns[1..], i))
            && (Causes(r, m, number, turns, i + 1, status) <==> Causes(r, m', number + 1, turns[1..], i, status))
  {
    SeenLater(m, turns, i);
  }

  lemma FirstTurn(r: Request, m: nat, number: nat, stop: nat, turns: seq<Turn>)
    requires turns != [] && HeightsFit(turns)
    ensures var o := TurnOutcome(r, Session(m, true), number, stop, turns[0]);
            && |Sends(o.trace)| == (if Clean(r, m, number, turns, 0) then 1 else 0)
            && (Clean(r, m, number, turns, 0) ==> o.status == if turns[0].block == stop then Some(SUCCESS) else None)
            && (!Clean(r, m, number, turns, 0) ==>
                  o.status.Some? && o.status.value != SUCCESS && Causes(r, m, number, turns, 0, o.status.value))
            && (o.status.None? ==>
                  Evaluated(Session(m, true), turns[0].look) == Session(Max(m, turns[0].look.sequence), true))
  {
    hide Sends, EvaluateTrace;
    LooksSendNothing(Session(m, true), turns[0].look);
    SendsOfTurn(Session(m, true), turns[0].look, turns[0].block);
    NothingSent(Outcome([], None));
  }

  /** Every loop ends as it should, whatever its turns meet. */
  lemma {:induction false} LoopEnds(r: Request, m: nat, number: nat, stop: nat, turns: seq<Turn>)
    requires HeightsFit(turns)
    ensures EndsAsItShould(r, m, number, stop, turns, Loop(r, Session(m, true), number, stop, turns))
    decreases |turns|
  {
    hide Sends, Clean, Causes, TurnOutcome;
    NothingSent(Outcome([], None));
    if turns != [] {
      FirstTurn(r, m, number, stop, turns);
      var first := TurnOutcome(r, Session(m, true), number, stop, turns[0]);
      if first.status.None? {
        var m' := Max(m, turns[0].look.sequence);
        LoopEnds(r, m', number + 1, stop, turns[1..]);
        var rest := Loop(r, Session(m', true), number + 1, stop, turns[1..]);
        SendsJoin(first.trace, rest.trace);
        LaterEnds(r, m, number, stop, turns, first.trace, rest);
      }
    }
  }

  lemma LaterEnds(
    r: Request, m: nat, number: nat, stop: nat, turns: seq<Turn>, trace: seq<Event>, rest: Outcome)
    requires turns != [] && Clean(r, m, number, turns, 0) && turns[0].block != stop
    requires Sends(trace + rest.trace) == Sends(trace) + Sends(rest.trace) && |Sends(trace)| == 1
    requires EndsAsItShould(r, Max(m, turns[0].look.sequence), number + 1, stop, turns[1..], rest)
    ensures EndsAsItShould(r, m, number, stop, turns, After(trace, rest))
  {
    hide Sends, Clean, Causes;
    var k := |Sends(rest.trace)|;
    forall i | 0 <= i < k + 1 ensures Clean(r, m, number, turns, i) {
      if i > 0 { LaterTurn(r, m, number, turns, i - 1, SUCCESS); }
    }
    forall i | 0 <= i < k ensures turns[i].block != stop {
      if i > 0 { assert turns[i] == turns[1..][i - 1]; }
    }
    if k < |turns| - 1 && rest.status.Some? { LaterTurn(r, m, number, turns, k, rest.status.value); }
  }

  /** And so does every delivery that starts: the sequence its first look read is the newest seen. */
  lemma DeliveryEnds(r: Request, errored: bool, first: Look, number: nat, height: nat, turns: seq<Turn>)
    requires height < UINT64 && HeightsFit(turns) && Starts(r, errored, first, number)
    ensures var o, stop := Delivered(r, errored, first, number, height, turns), StopNumber(r, number, height);
            stop.Some? && EndsAsItShould(r, first.sequence, number, stop.value, turns, o)
  {
    hide Sends, Clean, Causes, Loop;
    LooksSendNothing(NEW_SESSION, first);
    var stop, s := StopNumber(r, number, height).value, Evaluated(NEW_SESSION, first);
    assert s == Session(first.sequence, true);
    LoopEnds(r, first.sequence, number, stop, turns);
    var rest := Loop(r, s, number, stop, turns);
    SendsJoin(EvaluateTrace(NEW_SESSION, first), rest.trace);
    assert [] + Sends(rest.trace) == Sends(rest.trace);
  }
}
