/** Hot reload against the connection worker: the configuration lock and the `auto_read_dirty`
flag, stepped at the granularity at which the two sides can interleave. */
module MaskReload {
  import opened Bytes
  import opened PushMask

  /** Where the worker is between two accesses to what it shares with reloads. */
  datatype Worker =
    | Idle                                             // at its loop boundary
    | Cleared                                          // connecting, flag cleared
    | Chosen                                           // connecting, auto-read found enabled
    | Sending(mask: seq<byte>, connecting: bool)       // mask read, exchange under way
    | Configured                                       // connecting, about to report Connected
    | Swapped                                          // tick, flag taken
    | Failing                                          // tick, send failed, flag not stored yet

  /** `panel` is the mask the panel acts on in this session, `pending` the number of reloads that
  have written the configuration but not yet stored the flag, and `refused` the last mask of this
  session, if the panel answered it with an error code. */
  datatype State = State(config: AutoRead, dirty: bool, pending: nat, worker: Worker,
                         connected: bool, panel: seq<byte>, refused: Option<seq<byte>>)

  datatype Step =
    | ReloadWrite(config: AutoRead)
    | ReloadStore
    | ConnectClear
    | ConnectFail
    | CheckAutoRead
    | ReadMask(support14: bool)
    | Accept
    | Refuse
    | SendFail(lost: bool, applied: bool)
    | SetConnected
    | TickSwap
    | StoreBack
    | Drop

  /** The mask asks for exactly the categories the configuration selects. */
  predicate Agrees(mask: seq<byte>, config: AutoRead)
  {
    |mask| >= 12 && mask[..12] == BuildPushMask(config, false)
  }

  predicate Init(s: State)
  {
    s.worker == Idle && !s.connected && s.pending == 0 && !s.dirty && s.refused.None? && s.panel == SILENT
  }

  predicate Next(s: State, step: Step, t: State)
  {
    match step
    case ReloadWrite(config) =>
      var changed := BuildPushMask(s.config, true) != BuildPushMask(config, true);
      t == s.(config := config, pending := if changed then s.pending + 1 else s.pending)
    case ReloadStore =>
      s.pending > 0 && t == s.(pending := s.pending - 1, dirty := true)
    case ConnectClear =>
      s.worker == Idle && !s.connected
      && t == s.(worker := Cleared, dirty := false, panel := SILENT, refused := None)
    case ConnectFail =>
      s.worker == Cleared && t == s.(worker := Idle)
    case CheckAutoRead =>
      s.worker == Cleared && t == s.(worker := if s.config.IsEnabled() then Chosen else Configured)
    case ReadMask(support14) =>
      (s.worker == Chosen || s.worker == Swapped)
      && t == s.(worker := Sending(BuildPushMask(s.config, support14), s.worker == Chosen))
    case Accept =>
      s.worker.Sending?
      && t == s.(panel := s.worker.mask, refused := None,
                 worker := if s.worker.connecting then Configured else Idle)
    case Refuse =>
      s.worker.Sending?
      && t == s.(refused := Some(s.worker.mask), worker := if s.worker.connecting then Configured else Idle)
    case SendFail(lost, applied) =>
      s.worker.Sending?
      && t == s.(panel := if applied then s.worker.mask else s.panel,
                 connected := s.connected && !lost,
                 worker := if s.worker.connecting then Idle else Failing)
    case SetConnected =>
      s.worker == Configured && t == s.(worker := Idle, connected := true)
    case TickSwap =>
      s.worker == Idle && s.connected
      && t == if s.dirty then s.(dirty := false, worker := Swapped) else s
    case StoreBack =>
      s.worker == Failing && t == s.(dirty := true, worker := Idle)
    case Drop =>
      s.worker == Idle && t == s.(connected := false)
  }

  /** The worker has taken the flag and has not finished what it took it for. */
  predicate MidSend(w: Worker) { w.Swapped? || w.Sending? || w.Failing? }

  /** An outstanding request to send the current mask. */
  predicate Outstanding(s: State) { s.dirty || s.pending > 0 }

  /** The panel has answered with an error code to a mask that says what the configuration says. */
  predicate Refused(s: State) { s.refused.Some? && Agrees(s.refused.value, s.config) }

  /** No update is lost: a connected panel that does not follow the configuration will be sent
  the mask again, unless it has refused just this mask. */
  predicate NothingLost(s: State)
  {
    s.connected && !Agrees(s.panel, s.config) ==> Outstanding(s) || MidSend(s.worker) || Refused(s)
  }

  predicate Invariant(s: State)
  {
    match s.worker
    case Idle => s.connected ==> Agrees(s.panel, s.config) || Outstanding(s) || Refused(s)
    case Cleared => !s.connected && s.panel == SILENT && s.refused.None?
    case Chosen => !s.connected && s.panel == SILENT && s.refused.None?
    case Sending(mask, connecting) => connecting == !s.connected && (Agrees(mask, s.config) || Outstanding(s))
    case Configured => !s.connected && (Agrees(s.panel, s.config) || Outstanding(s) || Refused(s))
    case Swapped => s.connected
    case Failing => true
  }

  /** A reload that keeps the mask keeps agreement; one that changes it is outstanding. */
  lemma ReloadKeepsAgreement(mask: seq<byte>, previous: AutoRead, config: AutoRead)
    requires BuildPushMask(previous, true) == BuildPushMask(config, true)
    ensures Agrees(mask, previous) <==> Agrees(mask, config)
  {
    hide BuildPushMask;
    MaskLengthsAgree(previous);
    MaskLengthsAgree(config);
  }

  lemma FreshMaskAgrees(config: AutoRead, support14: bool)
    ensures Agrees(BuildPushMask(config, support14), config)
    ensures Agrees(SILENT, config) <==> !config.IsEnabled()
  {
    hide BuildPushMask;
    MaskLengthsAgree(config);
    SilentExactly(config);
    assert SILENT[..12] == SILENT;
    var m := BuildPushMask(config, false);
    assert m[..12] == m;
  }

  lemma NextKeepsInvariant(s: State, step: Step, t: State)
    requires Invariant(s) && Next(s, step, t)
    ensures Invariant(t)
  {
    hide BuildPushMask;
    match step
    case ReloadWrite(config) =>
      if BuildPushMask(s.config, true) == BuildPushMask(config, true) {
        ReloadKeepsAgreement(s.panel, s.config, config);
        if s.worker.Sending? {
          ReloadKeepsAgreement(s.worker.mask, s.config, config);
        }
        if s.refused.Some? {
          ReloadKeepsAgreement(s.refused.value, s.config, config);
        }
      }
    case CheckAutoRead => FreshMaskAgrees(s.config, false);
    case ReadMask(support14) => FreshMaskAgrees(s.config, support14);
    case _ =>
  }

  /** A run: any interleaving of any number of reloads with the worker. */
  predicate IsRun(states: seq<State>, steps: seq<Step>)
  {
    && |states| == |steps| + 1 && Init(states[0])
    && forall i :: 0 <= i < |steps| ==> Next(states[i], steps[i], states[i + 1])
  }

  lemma {:induction false} RunKeepsInvariant(states: seq<State>, steps: seq<Step>, n: nat)
    requires IsRun(states, steps) && n < |states|
    ensures Invariant(states[n])
  {
    hide BuildPushMask, Next;
    if n > 0 {
      RunKeepsInvariant(states, steps, n - 1);
      NextKeepsInvariant(states[n - 1], steps[n - 1], states[n]);
    }
  }

  /** Main result: in every state of every interleaving nothing is lost. */
  lemma NoLostUpdate(states: seq<State>, steps: seq<Step>, n: nat)
    requires IsRun(states, steps) && n < |states|
    ensures NothingLost(states[n])
  {
    RunKeepsInvariant(states, steps, n);
  }

  /** A connected, idle worker that ticks undisturbed and gets an answer. */
  predicate AnsweredTick(s: State, support14: bool, accepted: bool, t: State)
  {
    if !s.dirty then Next(s, TickSwap, t)
    else
      var swapped := s.(dirty := false, worker := Swapped);
      var sending := swapped.(worker := Sending(BuildPushMask(s.config, support14), false));
      && Next(s, TickSwap, swapped) && Next(swapped, ReadMask(support14), sending)
      && Next(sending, if accepted then Accept else Refuse, t)
  }

  /** Whenever a connected worker is idle it can tick, whatever happened before. */
  lemma TickIsPossible(s: State, support14: bool, accepted: bool) returns (t: State)
    requires s.worker == Idle && s.connected
    ensures AnsweredTick(s, support14, accepted, t)
  {
    if !s.dirty {
      return s;
    }
    var mask := BuildPushMask(s.config, support14);
    t := if accepted then s.(dirty := false, panel := mask, refused := None)
         else s.(dirty := false, refused := Some(mask));
  }

  /** Main result: with no reload under way, an accepted tick leaves the panel following the
  configuration, in every state a run can reach, exactly if the flag was up or the panel followed
  it already; and with the flag down it did, unless it had refused just this mask. */
  lemma AcceptedTickRestores(states: seq<State>, steps: seq<Step>, n: nat, support14: bool, t: State)
    requires IsRun(states, steps) && n < |states| && states[n].pending == 0
    requires AnsweredTick(states[n], support14, true, t)
    ensures t.connected && t.worker == Idle
    ensures Agrees(t.panel, t.config) <==> states[n].dirty || Agrees(states[n].panel, states[n].config)
    ensures states[n].dirty || !Refused(states[n]) ==> Agrees(t.panel, t.config)
  {
    hide BuildPushMask, IsRun;
    RunKeepsInvariant(states, steps, n);
    FreshMaskAgrees(states[n].config, support14);
  }

  /** The panel's refusal is not retried: the worker takes any answer for success. A tick that
  takes the flag brings agreement exactly if the panel accepts or already agreed. */
  lemma TickRestoresExactly(s: State, support14: bool, accepted: bool, t: State)
    requires s.dirty && AnsweredTick(s, support14, accepted, t)
    ensures Agrees(t.panel, t.config) <==> accepted || Agrees(s.panel, s.config)
    ensures !t.dirty && (Refused(t) <==> !accepted)
  {
    hide BuildPushMask;
    FreshMaskAgrees(s.config, support14);
  }

  /** Nothing is outstanding, and the panel does not follow the configuration. */
  predicate Forgotten(s: State)
  {
    s.worker == Idle && !Outstanding(s) && !Agrees(s.panel, s.config)
  }

  /** A reload that changes the mask, or the start of a new session. */
  predicate Reminds(s: State, step: Step)
  {
    || step.ConnectClear?
    || (step.ReloadWrite? && BuildPushMask(s.config, true) != BuildPushMask(step.config, true))
  }

  lemma ForgottenStays(s: State, step: Step, t: State)
    requires Forgotten(s) && Next(s, step, t) && !Reminds(s, step)
    ensures Forgotten(t) && t.panel == s.panel
  {
    hide BuildPushMask;
    if step.ReloadWrite? {
      ReloadKeepsAgreement(s.panel, s.config, step.config);
    }
  }

  /** Main result: from a state in which the mask is forgotten it is never sent again, in any run,
  until a reload changes the mask or a new session starts: the panel keeps what it has. */
  lemma {:induction false} ForgottenForGood(states: seq<State>, steps: seq<Step>, n: nat, m: nat)
    requires IsRun(states, steps) && n <= m < |states| && Forgotten(states[n])
    requires forall i :: n <= i < m ==> !Reminds(states[i], steps[i])
    ensures Forgotten(states[m]) && states[m].panel == states[n].panel
    decreases m
  {
    hide BuildPushMask, Next, Forgotten, Reminds;
    if n < m {
      ForgottenForGood(states, steps, n, m - 1);
      ForgottenStays(states[m - 1], steps[m - 1], states[m]);
    }
  }

  /** Such a state is reached in a connected session exactly by a refusal: in every state of every
  run, a mask is forgotten only if the panel has refused just this mask. */
  lemma ForgottenMeansRefused(states: seq<State>, steps: seq<Step>, n: nat)
    requires IsRun(states, steps) && n < |states| && states[n].connected && Forgotten(states[n])
    ensures Refused(states[n])
  {
    RunKeepsInvariant(states, steps, n);
  }

  /** And it is reached: a run in which the panel refuses a mask. */
  lemma RefusedUpdateIsForgotten() returns (states: seq<State>, steps: seq<Step>)
    ensures IsRun(states, steps)
    ensures var s := states[|steps|]; s.connected && Forgotten(s)
  {
    hide BuildPushMask;
    var off := ALL_OFF;
    var on := off.(violation := true);
    var s0 := State(off, false, 0, Idle, false, SILENT, None);
    var s1 := s0.(worker := Cleared);
    var s2 := s1.(worker := Configured);
    var s3 := s2.(worker := Idle, connected := true);
    var s4 := s3.(config := on, pending := 1);
    var s5 := s4.(pending := 0, dirty := true);
    var s6 := s5.(dirty := false, worker := Swapped);
    var s7 := s6.(worker := Sending(BuildPushMask(on, false), false));
    var s8 := s7.(refused := Some(BuildPushMask(on, false)), worker := Idle);
    MaskDiffers(off, on);
    FreshMaskAgrees(on, false);
    states := [s0, s1, s2, s3, s4, s5, s6, s7, s8];
    steps := [ConnectClear, CheckAutoRead, SetConnected, ReloadWrite(on), ReloadStore, TickSwap,
              ReadMask(false), Refuse];
  }

  lemma MaskDiffers(a: AutoRead, b: AutoRead)
    requires a != b
    ensures BuildPushMask(a, true) != BuildPushMask(b, true)
  {
    if BuildPushMask(a, true) == BuildPushMask(b, true) {
      MaskDeterminesSettings(a, b, true);
    }
  }
}
