/** The scripted OMCI sessions as one step machine.

    Five FSMs share one shape: a message loop reads commChan, entering a state
    sends one ME or starts a goroutine that sends a list of MEs and waits for
    each, and the response handler compares a response with the last
    transmitted ME before it lets the FSM proceed. Goroutines interleave freely
    and the ONU may answer, refuse, lose or repeat anything, so a run is a
    sequence of atomic actions chosen by an arbitrary scheduler. */
module Session {
  import opened Types

  /** What distinguishes the FSMs: the number of configuration states and which of them send
      several MEs, how the response handler reacts, and three details of the tables. */
  datatype Fsm = Fsm(
    phases: nat,
    multi: set<nat>,
    react: map<(Op, ClassId), Reaction>,
    autoReset: bool,       // entering Done posts a reset
    waits: bool,           // has the state waiting for the tech profile, and no timeout rows
    restartAnywhere: bool  // the restart event has rows for the live states, too
  )

  datatype St = Disabled | Starting | Waiting | Phase(i: nat) | Done | Resetting

  datatype Ev =
    | Start | StartConfig | WaitTechProf | Continue | Advance(i: nat)
    | TimeoutSimple | TimeoutMulti | Reset | Restart

  /** What entering a configuration state does; with givesUp set it also posts a reset. */
  datatype PhaseScript = Skip | Single(me: Me, givesUp: bool := false) | Multi(mes: seq<Me>)

  datatype Reaction = Fire(i: nat) | Hand | Ignore

  datatype Msg = Abort | Resp(op: Op, ok: bool, cls: ClassId, inst: uint16)

  /** A script goroutine: the MEs it has still to get acknowledged, and whether it
      is blocked waiting for the first of them. */
  datatype Runner = Runner(phase: nat, todo: seq<Me>, waiting: bool)

  /** A request that was handed to the channel, and the session that sent it. */
  datatype Req = Req(me: Me, session: nat)

  datatype Tr = Sent(me: Me) | Acked(me: Me)

  datatype Sys = Sys(
    st: St,
    script: seq<PhaseScript>,
    posted: multiset<Ev>,      // events that some goroutine is about to fire
    chan: seq<Msg>,            // commChan
    loops: nat,                // message loops ready to take the next message
    handing: nat,              // message loops blocked handing `true` to a waiter
    runners: seq<Runner>,
    lastTx: Option<Me>,        // pLastTxMeInstance
    reqs: seq<Req>,            // every request ever sent; the index identifies it
    open: set<nat>,            // requests whose response callback is still registered
    sessions: nat,             // how often Starting was entered
    trace: seq<Tr>             // what the latest session sent and got acknowledged
  )

  const INIT := Sys(Disabled, [], multiset{}, [], 0, 0, [], None, [], {}, 0, [])

  predicate Live(st: St) { !st.Disabled? && !st.Resetting? }

  /** The transition table all five FSMs instantiate. */
  function Target(f: Fsm, st: St, ev: Ev): Option<St> {
    match ev
    case Start => if st.Disabled? then Some(Starting) else None
    case StartConfig => if st.Starting? then Some(Phase(0)) else None
    case WaitTechProf => if f.waits && st.Starting? then Some(Waiting) else None
    case Continue => if f.waits && st.Waiting? then Some(Phase(0)) else None
    case Advance(i) =>
      if st == Phase(i) && i < f.phases
      then Some(if i + 1 == f.phases then Done else Phase(i + 1)) else None
    case TimeoutSimple =>
      if !f.waits && st.Phase? && st.i < f.phases && st.i !in f.multi then Some(Starting) else None
    case TimeoutMulti =>
      if !f.waits && st.Phase? && st.i < f.phases && st.i in f.multi then Some(Starting) else None
    case Reset => if Live(st) then Some(Resetting) else None
    case Restart =>
      if st.Resetting? || (f.restartAnywhere && Live(st)) then Some(Disabled) else None
  }

  /** What the response handler does with a Success response to `op` that matches the last
      transmitted ME: its switch over the name of that ME. */
  function React(f: Fsm, op: Op, cls: ClassId): Reaction {
    if (op, cls) in f.react then f.react[(op, cls)] else Ignore
  }

  /** oo.send registers the callback, queues the frame and the caller stores the ME. */
  function Send(s: Sys, me: Me): Sys {
    s.(lastTx := Some(me), reqs := s.reqs + [Req(me, s.sessions)],
       open := s.open + {|s.reqs|}, trace := s.trace + [Sent(me)])
  }

  /** The enter_ callbacks. */
  function Enter(f: Fsm, s: Sys): Sys {
    match s.st
    case Disabled => s
    case Waiting => s
    case Starting =>
      s.(loops := s.loops + 1, posted := s.posted + multiset{StartConfig},
         sessions := s.sessions + 1, trace := [])
    case Phase(i) =>
      if i >= |s.script| then s
      else (match s.script[i]
            case Skip => s.(posted := s.posted + multiset{Advance(i)})
            case Single(me, givesUp) =>
              var t := Send(s, me);
              if givesUp then t.(posted := t.posted + multiset{Reset}) else t
            case Multi(mes) => s.(runners := s.runners + [Runner(i, mes, false)]))
    case Done => if f.autoReset then s.(posted := s.posted + multiset{Reset}) else s
    case Resetting => s.(chan := s.chan + [Abort], posted := s.posted + multiset{Restart})
  }

  /** pFsm.Event: ignored unless the table has a row for the current state. */
  function FireEvent(f: Fsm, s: Sys, ev: Ev): Sys {
    match Target(f, s.st, ev)
    case None => s
    case Some(d) => Enter(f, s.(st := d))
  }

  predicate Good(op: Op, ok: bool, cls: ClassId, inst: uint16, me: Me) {
    ok && cls == me.cls && inst == me.inst && op == me.op
  }

  /** The response handler, called from a message loop. */
  function Handle(f: Fsm, s: Sys, m: Msg): Sys
    requires m.Resp? && s.loops > 0
  {
    if !m.ok || s.lastTx.None? || m.cls != s.lastTx.value.cls || m.inst != s.lastTx.value.inst then s
    else match React(f, m.op, s.lastTx.value.cls)
      case Fire(i) => FireEvent(f, s, Advance(i))
      case Hand => s.(loops := s.loops - 1, handing := s.handing + 1)
      case Ignore => s
  }

  datatype Act =
    | Begin(script: seq<PhaseScript>, tx: Option<Me>)  // owner starts a session; tx is what others sent before
    | FirePosted(ev: Ev)
    | TechProfMissing                                  // VLAN: the goroutine finds no tech profile yet
    | TechProfDone                                     // VLAN: the ANI session reports completion
    | ExternalReset                                    // device down, opposite lock FSM, failed caller
    | Take                                             // a message loop reads commChan
    | Go(r: nat)                                       // runner r sends its next ME or ends
    | Rendezvous(r: nat)                               // waiting runner r receives `true`
    | Expire(r: nat)                                   // 30 s passed for waiting runner r
    | Reply(req: nat, op: Op, ok: bool, cls: ClassId, inst: uint16)  // a response frame for request req

  function RemoveAt<T>(xs: seq<T>, r: nat): seq<T>
    requires r < |xs|
  {
    xs[..r] + xs[r + 1..]
  }

  function TakeMsg(f: Fsm, s: Sys): Sys
    requires s.loops > 0 && s.chan != []
  {
    var rest := s.(chan := s.chan[1..]);
    if s.chan[0].Abort? then rest.(loops := s.loops - 1) else Handle(f, rest, s.chan[0])
  }

  function GoRunner(f: Fsm, s: Sys, r: nat): Sys
    requires r < |s.runners| && !s.runners[r].waiting
  {
    var run := s.runners[r];
    if run.todo == [] then FireEvent(f, s.(runners := RemoveAt(s.runners, r)), Advance(run.phase))
    else Send(s.(runners := s.runners[r := run.(waiting := true)]), run.todo[0])
  }

  function ReplyTo(s: Sys, req: nat, m: Msg): Sys
    requires req in s.open && m.Resp?
  {
    var t := s.(open := s.open - {req}, chan := s.chan + [m]);
    if req < |s.reqs| && s.reqs[req].session == s.sessions && Good(m.op, m.ok, m.cls, m.inst, s.reqs[req].me)
    then t.(trace := s.trace + [Acked(s.reqs[req].me)]) else t
  }

  /** One atomic action; an action that is not enabled changes nothing. A lost frame is a
      Reply that never comes, a repeated one finds its callback gone. */
  function Step(f: Fsm, s: Sys, a: Act): Sys {
    match a
    case Begin(script, tx) =>
      if s.st.Disabled? then FireEvent(f, s.(script := script, lastTx := tx), Start) else s
    case FirePosted(ev) =>
      if ev in s.posted then FireEvent(f, s.(posted := s.posted - multiset{ev}), ev) else s
    case TechProfMissing =>
      if f.waits && StartConfig in s.posted
      then FireEvent(f, s.(posted := s.posted - multiset{StartConfig}), WaitTechProf) else s
    case TechProfDone => if f.waits then FireEvent(f, s, Continue) else s
    case ExternalReset => FireEvent(f, s, Reset)
    case Take => if s.loops > 0 && s.chan != [] then TakeMsg(f, s) else s
    case Go(r) => if r < |s.runners| && !s.runners[r].waiting then GoRunner(f, s, r) else s
    case Rendezvous(r) =>
      if r < |s.runners| && s.runners[r].waiting && s.runners[r].todo != [] && s.handing > 0
      then s.(handing := s.handing - 1, loops := s.loops + 1,
              runners := s.runners[r := Runner(s.runners[r].phase, s.runners[r].todo[1..], false)])
      else s
    case Expire(r) =>
      if r < |s.runners| && s.runners[r].waiting
      then FireEvent(f, s.(runners := RemoveAt(s.runners, r)), Reset) else s
    case Reply(req, op, ok, cls, inst) =>
      if req in s.open then ReplyTo(s, req, Resp(op, ok, cls, inst)) else s
  }

  function Run(f: Fsm, s: Sys, acts: seq<Act>): Sys
    decreases |acts|
  {
    if acts == [] then s else Run(f, Step(f, s, acts[0]), acts[1..])
  }
}
