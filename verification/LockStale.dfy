/** What a lock or unlock session that was cut short can do to the next one, with the scripts these
    sessions have: both ways in which "Done means acknowledged" fails once a session does not start clean. */
module LockStale {
  import opened Types
  import opened Session
  import opened SessionLoops
  import opened SessionProgress
  import opened SessionExact
  import opened LockSession

  const CONFIG := FirePosted(StartConfig)
  const UNLOCK_ONU := OnuGStep(false)
  const NO_PORTS := Script(false, [])
  const ANSWER := Resp(Set, true, ClassId.OnuG, 0)

  /** After an unlock session that was reset before ONU-G answered. */
  const ABORTED := Sys(Disabled, NO_PORTS, multiset{}, [Abort], 1, 0, [], Some(UNLOCK_ONU), [Req(UNLOCK_ONU, 1)], {0},
                       1, [Sent(UNLOCK_ONU)])

  /** The late answer of that session, queued behind its abort message, while the next one waits. */
  const LATE := Sys(Phase(0), NO_PORTS, multiset{}, [Abort, ANSWER], 2, 0, [], Some(UNLOCK_ONU),
                    [Req(UNLOCK_ONU, 1), Req(UNLOCK_ONU, 2)], {1}, 2, [Sent(UNLOCK_ONU)])

  lemma AbortedIsReached()
    ensures Run(UNLOCK_FSM, INIT, [Begin(NO_PORTS, None), CONFIG] + [ExternalReset, FirePosted(Restart)]) == ABORTED
  {
    var f := UNLOCK_FSM;
    var s := Step(f, Step(f, INIT, Begin(NO_PORTS, None)), CONFIG);
    assert s == Sys(Phase(0), NO_PORTS, multiset{}, [], 1, 0, [], Some(UNLOCK_ONU), [Req(UNLOCK_ONU, 1)], {0}, 1,
                    [Sent(UNLOCK_ONU)]);
    var t := Step(f, s, ExternalReset);
    assert t == s.(st := Resetting, chan := [Abort], posted := multiset{Restart});
    assert t.posted - multiset{Restart} == multiset{};
    assert Step(f, t, FirePosted(Restart)) == ABORTED;
    RunTwo(f, INIT, Begin(NO_PORTS, None), CONFIG);
    RunTwo(f, s, ExternalReset, FirePosted(Restart));
    RunAppend(f, INIT, [Begin(NO_PORTS, None), CONFIG], [ExternalReset, FirePosted(Restart)]);
  }

  lemma LateIsReached()
    ensures Run(UNLOCK_FSM, ABORTED, [Begin(NO_PORTS, None), CONFIG] + [Reply(0, Set, true, ClassId.OnuG, 0)]) == LATE
  {
    var f := UNLOCK_FSM;
    var s := Step(f, ABORTED, Begin(NO_PORTS, None));
    assert s == ABORTED.(st := Starting, loops := 2, posted := multiset{StartConfig}, sessions := 2, trace := [],
                         lastTx := None);
    assert s.posted - multiset{StartConfig} == multiset{};
    var t := Step(f, s, CONFIG);
    assert t == LATE.(chan := [Abort], open := {0, 1});
    assert t.open - {0} == {1};
    var reply := Reply(0, Set, true, ClassId.OnuG, 0);
    assert Step(f, t, reply) == LATE;
    RunTwo(f, ABORTED, Begin(NO_PORTS, None), CONFIG);
    assert Run(f, t, [reply]) == Run(f, Step(f, t, reply), []);
    RunAppend(f, ABORTED, [Begin(NO_PORTS, None), CONFIG], [reply]);
  }

  lemma LateCompletes()
    ensures var s := Run(UNLOCK_FSM, LATE, [Take, Take] + [Go(0)]);
            s.st.Done? && s.sessions == 2 && s.trace == [Sent(UNLOCK_ONU)]
  {
    var f := UNLOCK_FSM;
    var s := Step(f, LATE, Take);
    assert LATE.chan[1..] == [ANSWER];
    assert s == LATE.(chan := [ANSWER], loops := 1);
    var t := Step(f, s, Take);
    assert s.chan[1..] == [];
    assert t == s.(chan := [], st := Phase(1), runners := [Runner(1, [], false)]);
    var u := Step(f, t, Go(0));
    assert RemoveAt(t.runners, 0) == [];
    assert u.st == Done && u.trace == [Sent(UNLOCK_ONU)] && u.sessions == 2;
    RunTwo(f, LATE, Take, Take);
    assert Run(f, t, [Go(0)]) == Run(f, u, []);
    RunAppend(f, LATE, [Take, Take], [Go(0)]);
  }

  /** A session is reset before the ONU answers; the answer arrives during the next session and
      completes it: Done is reached although nothing that session sent was acknowledged. */
  lemma LateReplyCompletesNextSession()
    ensures exists acts ::
              var s := Run(UNLOCK_FSM, INIT, acts);
              s.st.Done? && s.sessions == 2 && s.trace == [Sent(UNLOCK_ONU)]
  {
    hide Run, Step;
    var a := [Begin(NO_PORTS, None), CONFIG] + [ExternalReset, FirePosted(Restart)];
    var b := [Begin(NO_PORTS, None), CONFIG] + [Reply(0, Set, true, ClassId.OnuG, 0)];
    var c := [Take, Take] + [Go(0)];
    AbortedIsReached();
    LateIsReached();
    LateCompletes();
    RunAppend(UNLOCK_FSM, ABORTED, b, c);
    RunAppend(UNLOCK_FSM, INIT, a, b + c);
  }

  lemma AnsweredUnlock(f: Fsm, b: Sys, req: nat)
    requires f == UNLOCK_FSM && b.st == Phase(0) && b.script == NO_PORTS
    requires b.loops == 1 && b.chan == [] && b.trace == []
    requires req in b.open && req < |b.reqs| && b.reqs[req].session < b.sessions
    ensures var s := Run(f, Enter(f, b), [Success(UNLOCK_ONU, req), Take] + [Go(|b.runners|)]);
            s.st.Done? && s.sessions == b.sessions && s.trace == [Sent(UNLOCK_ONU)]
  {
    EntersSingle(f, b, 0, UNLOCK_ONU);
    var v := Send(b, UNLOCK_ONU);
    var w := Step(f, v, Success(UNLOCK_ONU, req));
    assert w == v.(open := v.open - {req}, chan := [ANSWER]);
    TakesFire(f, w, UNLOCK_ONU, ANSWER, 0);
    var c := w.(chan := [], st := Phase(1));
    PassesPhase(f, c, 1);
    SessionExact.EnterDone(f, c.(st := Done));
    RunTwo(f, v, Success(UNLOCK_ONU, req), Take);
    hide Run, Step, Enter;
    RunAppend(f, v, [Success(UNLOCK_ONU, req), Take], [Go(|b.runners|)]);
  }

  /** As long as any request of an earlier session can still be answered and no handler is blocked,
      the next unlock session can be completed by that answer. */
  lemma AnyRegisteredRequestCompletesUnlock(s0: Sys, req: nat)
    requires Conserved(s0) && Plausible(UNLOCK_FSM, s0) && s0.st.Disabled? && s0.handing == 0 && req in s0.open
    ensures exists acts ::
              var s := Run(UNLOCK_FSM, Step(UNLOCK_FSM, s0, Begin(NO_PORTS, None)), acts);
              s.st.Done? && s.sessions == s0.sessions + 1 && s.trace == [Sent(UNLOCK_ONU)]
  {
    var f, n := UNLOCK_FSM, |s0.chan|;
    AllAborts(s0);
    Starts(f, s0, NO_PORTS, n);
    var b := Base(s0, NO_PORTS, n).(st := Phase(0));
    assert req < |s0.reqs| && s0.reqs[req].session <= s0.sessions;
    hide Run, Step, Enter, Plausible, Conserved;
    AnsweredUnlock(f, b, req);
    RunAppend(f, Step(f, s0, Begin(NO_PORTS, None)), Takes(n) + [FirePosted(StartConfig)],
              [Success(UNLOCK_ONU, req), Take] + [Go(|b.runners|)]);
  }

  // ---- an expired wait ----

  const PORT1 := [Port(Pptp, 1)]
  const LOCKING := Script(true, PORT1)
  const LOCK_UNI := Me(Set, UniG, 1, AdminAttr(true))

  const ANSWER1 := Resp(Set, true, UniG, 1)

  /** The wait for the only port expired, the session was reset, and then the answer arrived. */
  const EXPIRED := Sys(Disabled, LOCKING, multiset{}, [ANSWER1], 0, 0, [], Some(LOCK_UNI), [Req(LOCK_UNI, 1)], {}, 1,
                       [Sent(LOCK_UNI), Acked(LOCK_UNI)])

  /** The next session's message loop has taken that answer and holds a `true` for its goroutine. */
  const HOLDING := Sys(Phase(0), LOCKING, multiset{}, [], 0, 1, [Runner(0, [LOCK_UNI], false)], Some(LOCK_UNI),
                       [Req(LOCK_UNI, 1)], {}, 2, [])

  lemma UniStepsOfPort1()
    ensures UniSteps(true, PORT1) == [LOCK_UNI]
  {
    assert PORT1[1..] == [];
    assert UniSteps(true, []) == [];
  }

  /** The wait has just expired: the goroutine is gone and the FSM resets. */
  const TIMED_OUT := Sys(Resetting, LOCKING, multiset{Restart}, [Abort], 1, 0, [], Some(LOCK_UNI), [Req(LOCK_UNI, 1)],
                         {0}, 1, [Sent(LOCK_UNI)])

  const UNTIL_TIMEOUT := [Begin(LOCKING, None), CONFIG] + [Go(0), Expire(0)]
  const LATE_ANSWER := Reply(0, Set, true, UniG, 1)
  const UNTIL_DISABLED := [LATE_ANSWER, Take] + [FirePosted(Restart)]

  lemma TimedOutIsReached()
    ensures Run(LOCK_FSM, INIT, UNTIL_TIMEOUT) == TIMED_OUT
  {
    var f := LOCK_FSM;
    UniStepsOfPort1();
    var s := Step(f, Step(f, INIT, Begin(LOCKING, None)), CONFIG);
    assert s == Sys(Phase(0), LOCKING, multiset{}, [], 1, 0, [Runner(0, [LOCK_UNI], false)], None, [], {}, 1, []);
    var t := Step(f, s, Go(0));
    assert t == s.(runners := [Runner(0, [LOCK_UNI], true)], lastTx := Some(LOCK_UNI), reqs := [Req(LOCK_UNI, 1)],
                   open := {0}, trace := [Sent(LOCK_UNI)]);
    assert RemoveAt(t.runners, 0) == [];
    assert Step(f, t, Expire(0)) == TIMED_OUT;
    hide Step;
    RunTwo(f, INIT, Begin(LOCKING, None), CONFIG);
    RunTwo(f, s, Go(0), Expire(0));
    RunAppend(f, INIT, [Begin(LOCKING, None), CONFIG], [Go(0), Expire(0)]);
  }

  /** The late answer is queued behind the abort message that ends the message loop. */
  const ANSWERED := TIMED_OUT.(chan := [Abort, ANSWER1], open := {}, trace := [Sent(LOCK_UNI), Acked(LOCK_UNI)])
  const ABORTING := ANSWERED.(chan := [ANSWER1], loops := 0)

  lemma AnsweredIsReached()
    ensures Step(LOCK_FSM, TIMED_OUT, LATE_ANSWER) == ANSWERED && Step(LOCK_FSM, ANSWERED, Take) == ABORTING
  {
    assert {0} - {0} == {} && ANSWERED.chan[1..] == [ANSWER1];
  }

  lemma ExpiredIsReached()
    ensures Run(LOCK_FSM, TIMED_OUT, UNTIL_DISABLED) == EXPIRED
  {
    var f := LOCK_FSM;
    AnsweredIsReached();
    assert ABORTING.posted - multiset{Restart} == multiset{};
    assert Step(f, ABORTING, FirePosted(Restart)) == EXPIRED;
    hide Step;
    RunTwo(f, TIMED_OUT, LATE_ANSWER, Take);
    assert Run(f, ABORTING, [FirePosted(Restart)]) == Run(f, EXPIRED, []);
    RunAppend(f, TIMED_OUT, [LATE_ANSWER, Take], [FirePosted(Restart)]);
  }

  lemma HoldingIsReached()
    ensures Run(LOCK_FSM, EXPIRED, [Begin(LOCKING, Some(LOCK_UNI)), CONFIG] + [Take]) == HOLDING
  {
    var f := LOCK_FSM;
    UniStepsOfPort1();
    var s := Step(f, EXPIRED, Begin(LOCKING, Some(LOCK_UNI)));
    assert s == EXPIRED.(st := Starting, loops := 1, posted := multiset{StartConfig}, sessions := 2, trace := []);
    assert s.posted - multiset{StartConfig} == multiset{};
    var t := Step(f, s, CONFIG);
    assert t == s.(st := Phase(0), posted := multiset{}, runners := [Runner(0, [LOCK_UNI], false)]);
    assert t.chan[1..] == [];
    assert Step(f, t, Take) == HOLDING;
    hide Step;
    RunTwo(f, EXPIRED, Begin(LOCKING, Some(LOCK_UNI)), CONFIG);
    assert Run(f, t, [Take]) == Run(f, HOLDING, []);
    RunAppend(f, EXPIRED, [Begin(LOCKING, Some(LOCK_UNI)), CONFIG], [Take]);
  }

  lemma HoldingPassesPort()
    ensures Run(LOCK_FSM, HOLDING, [Go(0), Rendezvous(0)] + [Go(0)]).trace == [Sent(LOCK_UNI), Sent(OnuGStep(true))]
  {
    var f := LOCK_FSM;
    var s := Step(f, HOLDING, Go(0));
    assert s.handing == 1 && s.runners == [Runner(0, [LOCK_UNI], true)] && s.trace == [Sent(LOCK_UNI)];
    var t := Step(f, s, Rendezvous(0));
    assert [LOCK_UNI][1..] == [];
    assert t.st == Phase(0) && t.runners == [Runner(0, [], false)];
    assert t.trace == [Sent(LOCK_UNI)] && t.script == LOCKING;
    var u := Step(f, t, Go(0));
    assert RemoveAt(t.runners, 0) == [];
    assert u.trace == [Sent(LOCK_UNI), Sent(OnuGStep(true))];
    hide Step;
    RunTwo(f, HOLDING, Go(0), Rendezvous(0));
    assert Run(f, t, [Go(0)]) == Run(f, u, []);
    RunAppend(f, HOLDING, [Go(0), Rendezvous(0)], [Go(0)]);
  }

  /** A wait expires and the answer comes late: the next lock session passes its port on that answer,
      and ONU-G is locked before the port's lock was acknowledged. */
  lemma ExpiredWaitBreaksLockOrder()
    ensures exists acts :: Run(LOCK_FSM, INIT, acts).trace == [Sent(LOCK_UNI), Sent(OnuGStep(true))]
  {
    hide Run, Step;
    TimedOutIsReached();
    ExpiredIsReached();
    HoldingIsReached();
    HoldingPassesPort();
    var b := [Begin(LOCKING, Some(LOCK_UNI)), CONFIG] + [Take];
    var c := [Go(0), Rendezvous(0)] + [Go(0)];
    RunAppend(LOCK_FSM, EXPIRED, b, c);
    RunAppend(LOCK_FSM, TIMED_OUT, UNTIL_DISABLED, b + c);
    RunAppend(LOCK_FSM, INIT, UNTIL_TIMEOUT, UNTIL_DISABLED + (b + c));
  }
}
