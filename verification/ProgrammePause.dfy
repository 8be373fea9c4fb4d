// The emergency stop: what a pause halts, and what goes on as if it were not there.
module ProgrammePause {
  import opened Results
  import opened Ledger
  import opened MapSums
  import opened Votes
  import opened Programme
  import opened ProgrammeTerms

  function WithPause(w: World, paused: bool): World {
    w.(p := w.p.(paused := paused))
  }

  function StepWithPause(r: Result<World, Error>, paused: bool): Result<World, Error> {
    match r
    case Ok(next) => Ok(WithPause(next, paused))
    case Err(e) => Err(e)
  }

  predicate IsForward(call: Call) {
    || call.CallContribute? || call.CallApply? || call.CallReview? || call.CallFinalize?
    || call.CallSpend? || call.CallRelease?
  }

  // What brings money home, and the creator's other controls.
  predicate IsExit(call: Call) {
    || call.CallRefund? || call.CallSweepFee? || call.CallSweepUnclaimed? || call.CallWithdraw?
    || call.CallCancel? || call.CallExtendReleaseDeadline?
  }

  lemma MoveIgnoresPause(w: World, from: Address, to: Address, amount: int, reason: Reason, paused: bool)
    ensures MoveToken(WithPause(w, paused), from, to, amount, reason) ==
            StepWithPause(MoveToken(w, from, to, amount, reason), paused)
  {
    hide Moved;
  }

  lemma DueIgnoresPause(w: World, donor: Address, asked: Option<int>, paused: bool)
    ensures RefundDue(WithPause(w, paused), donor, asked) == RefundDue(w, donor, asked)
  {
  }

  lemma RefundIgnoresPause(w: World, donor: Address, asked: Option<int>, paused: bool)
    ensures First(ClaimRefund(WithPause(w, paused), donor, asked)) == StepWithPause(First(ClaimRefund(w, donor, asked)), paused)
  {
    hide RefundDue, MoveToken;
    DueIgnoresPause(w, donor, asked, paused);
    if RefundDue(w, donor, asked).Ok? {
      MoveIgnoresPause(w, w.self, donor, RefundDue(w, donor, asked).value, Refund, paused);
    }
  }

  lemma FeeIgnoresPause(w: World, paused: bool)
    ensures First(SweepFee(WithPause(w, paused))) == StepWithPause(First(SweepFee(w)), paused)
  {
    hide Moved, FeeOn;
  }

  lemma RemainderIgnoresPause(w: World, paused: bool)
    ensures First(SweepUnclaimed(WithPause(w, paused))) == StepWithPause(First(SweepUnclaimed(w)), paused)
  {
    hide Moved;
  }

  // A pause refuses every forward call, and changes nothing about whether and how donors get their
  // money back, fees and remainders are swept, or the clock of the deadlines runs.
  lemma {:induction false} PauseIsContained(w: World, call: Call)
    ensures IsForward(call) ==> Step(WithPause(w, true), call) == Err(Paused)
    ensures IsExit(call) ==> Step(WithPause(w, true), call) == StepWithPause(Step(w, call), true)
    ensures call.Tick? ==> Next(WithPause(w, true), call) == WithPause(Next(w, call), true)
  {
    if call.CallRefund? {
      RefundIgnoresPause(w, call.donor, call.asked, true);
      hide ClaimRefund;
    } else if call.CallSweepFee? {
      FeeIgnoresPause(w, true);
      hide SweepFee;
    } else if call.CallSweepUnclaimed? {
      RemainderIgnoresPause(w, true);
      hide SweepUnclaimed;
    } else {
      ForwardAndControlsPaused(w, call);
    }
  }

  lemma ForwardAndControlsPaused(w: World, call: Call)
    requires !call.CallRefund? && !call.CallSweepFee? && !call.CallSweepUnclaimed?
    ensures IsForward(call) ==> Step(WithPause(w, true), call) == Err(Paused)
    ensures IsExit(call) ==> Step(WithPause(w, true), call) == StepWithPause(Step(w, call), true)
    ensures call.Tick? ==> Next(WithPause(w, true), call) == WithPause(Next(w, call), true)
  {
    hide MoveToken, Disburse, ReleaseEach, ProofGuard, Inserted, Removed, RequirePhase;
  }

  // ---- batches ----

  function ResultWithPause(r: Result<(World, int), Error>, paused: bool): Result<(World, int), Error> {
    match r
    case Ok(pair) => Ok((WithPause(pair.0, paused), pair.1))
    case Err(e) => Err(e)
  }

  lemma PayOutIgnoresPause(w: World, a: Award, amount: int, paused: bool)
    ensures PayOut(WithPause(w, paused), a, amount) == StepWithPause(PayOut(w, a, amount), paused)
  {
    hide Moved;
  }

  lemma CreditIgnoresPause(w: World, recipient: Address, amount: int, uid: Uid, paused: bool)
    ensures Credited(WithPause(w, paused), recipient, amount, uid) ==
            StepWithPause(Credited(w, recipient, amount, uid), paused)
  {
  }

  lemma BookingIgnoresPause(w: World, recipient: Address, a: Award, uid: Uid, paused: bool)
    ensures Booked(WithPause(w, paused), recipient, a, uid) == WithPause(Booked(w, recipient, a, uid), paused)
    ensures WithPause(w, paused).p.released == w.p.released
    ensures WithPause(w, paused).p.awards == w.p.awards
  {
  }

  lemma DisburseIgnoresPause(w: World, recipient: Address, a: Award, uid: Uid, paused: bool)
    ensures Disburse(WithPause(w, paused), recipient, a, uid) == StepWithPause(Disburse(w, recipient, a, uid), paused)
  {
    hide PayOut, NextTranche, Credited, Booked, WithPause;
    var booked := Booked(w, recipient, a, uid);
    BookingIgnoresPause(w, recipient, a, uid, paused);
    BookingIgnoresPause(booked, recipient, a, uid, paused);
    AwardBooked(w, recipient, a, uid);
    var paid := PayOut(booked, booked.p.awards[recipient], NextTranche(a));
    PayOutIgnoresPause(booked, booked.p.awards[recipient], NextTranche(a), paused);
    if paid.Ok? {
      CreditIgnoresPause(paid.value, recipient, NextTranche(a), uid, paused);
    }
  }

  lemma AwardBooked(w: World, recipient: Address, a: Award, uid: Uid)
    ensures recipient in Booked(w, recipient, a, uid).p.awards
  {
  }

  lemma {:induction false} EachIgnoresPause(w: World, recipient: Address, uids: seq<Uid>, attester: Address, paused: bool)
    ensures ReleaseEach(WithPause(w, paused), recipient, uids, attester) ==
            ResultWithPause(ReleaseEach(w, recipient, uids, attester), paused)
    decreases |uids|
  {
    hide Disburse, NextTranche;
    if uids != [] && recipient in w.p.awards {
      DisburseIgnoresPause(w, recipient, w.p.awards[recipient], uids[0], paused);
      if Disburse(w, recipient, w.p.awards[recipient], uids[0]).Ok? {
        EachIgnoresPause(Disburse(w, recipient, w.p.awards[recipient], uids[0]).value, recipient, uids[1..], attester, paused);
      }
    }
  }

  // A pause stops every single release and no batch: a batch does what it would do unpaused.
  lemma PauseStopsReleasesNotBatches(w: World, recipient: Address, uids: seq<Uid>, attester: Address, uid: Uid)
    ensures Release(WithPause(w, true), recipient, uid, attester) == Err(Paused)
    ensures ReleaseBatch(WithPause(w, true), recipient, uids, attester) ==
            ResultWithPause(ReleaseBatch(w, recipient, uids, attester), true)
  {
    EachIgnoresPause(w, recipient, uids, attester, true);
    hide ReleaseEach;
  }
}
