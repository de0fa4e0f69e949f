/**
 The central diagnostics manager: enabling, disabling, submissions and token renewals
 interleaved at their suspension points, under a configuration lock and a renewal lock.
 */
module Diagnostics {
  import opened Common

  /** Off means no connection; the two are always patched together. */
  datatype Settings = Settings(enabled: bool, connection: string)

  datatype DisableStage =
    | DisableQueued | DisableLocking | DisableReading | DisableDeleting | DisablePatching | DisableReporting

  datatype EnableStage =
    | EnableQueued | EnableReading | EnableMinting | EnableStoring | EnablePatching | EnableRollingBack
    | EnableDeletingPrevious | EnableReporting

  datatype SubmitStage =
    | SubmitReading | SubmitLooking | RenewQueued | RenewReading | RenewLooking | RenewMinting | RenewStoring
    | RenewPatching | SubmitChecking | SubmitPosting

  /** A call that has not returned, with what it remembers across its suspension points. */
  datatype Task =
    | Disabling(disable: DisableStage, previous: string)
    | Enabling(connection: string, enable: EnableStage, previous: string)
    | Submitting(submit: SubmitStage, target: string, generation: nat, retried: bool)

  /**
   `calm` says that a disable has returned successfully and no enable has stored a token since; `stranded` holds the
   connections whose token was left behind while the settings did not name them.
   */
  datatype State = State(
    settings: Settings,
    stored: set<string>,
    configureHeld: Option<nat>,
    renewHeld: Option<nat>,
    generation: nat,
    inProgress: int,
    tasks: map<nat, Task>,
    next: nat,
    calm: bool,
    stranded: set<string>)

  const START := State(Settings(false, ""), {}, None, None, 0, 0, map[], 0, false, {})

  /** `ok` is how the awaited operation ended; `found` decides what it found: a usable token, or a rejected one. */
  datatype Event =
    | BeginEnable(connection: string)
    | BeginDisable
    | BeginSubmit
    | Resume(task: nat, ok: bool, found: bool)

  // ----- the steps -----

  function Set(s: State, t: nat, task: Task): State {
    s.(tasks := s.tasks[t := task])
  }

  /** The call returns or raises: its locks are released. */
  function End(s: State, t: nat): State {
    s.(tasks := s.tasks - {t},
       configureHeld := if s.configureHeld == Some(t) then None else s.configureHeld,
       renewHeld := if s.renewHeld == Some(t) then None else s.renewHeld)
  }

  function EndDisable(s: State, t: nat): State {
    End(s, t).(inProgress := s.inProgress - 1)
  }

  function OnDisable(s: State, t: nat, stage: DisableStage, previous: string, ok: bool): State {
    match stage
    case DisableQueued =>
      if s.configureHeld.Some? then s
      else
        var held := s.(configureHeld := Some(t));
        if ok then Set(held, t, Disabling(DisableLocking, "")) else EndDisable(held, t)
    case DisableLocking =>
      if s.renewHeld.Some? then s else Set(s.(renewHeld := Some(t)), t, Disabling(DisableReading, ""))
    case DisableReading =>
      if !ok then EndDisable(s, t)
      else if s.settings.connection != "" then Set(s, t, Disabling(DisableDeleting, s.settings.connection))
      else Set(s, t, Disabling(DisablePatching, ""))
    case DisableDeleting =>
      if !ok then EndDisable(s, t)
      else Set(s.(stored := s.stored - {previous}), t, Disabling(DisablePatching, previous))
    case DisablePatching =>
      if !ok then EndDisable(s, t)
      else Set(s.(settings := Settings(false, ""), renewHeld := None), t, Disabling(DisableReporting, previous))
    case DisableReporting =>
      EndDisable(s, t).(calm := s.calm || ok)
  }

  function OnEnable(s: State, t: nat, connection: string, stage: EnableStage, previous: string, ok: bool): State {
    match stage
    case EnableQueued =>
      if s.configureHeld.Some? then s
      else
        var held := s.(configureHeld := Some(t));
        if ok then Set(held, t, Enabling(connection, EnableReading, "")) else End(held, t)
    case EnableReading =>
      if !ok || connection == "" then End(s, t)
      else Set(s, t, Enabling(connection, EnableMinting, s.settings.connection))
    case EnableMinting =>
      if !ok then End(s, t) else Set(s, t, Enabling(connection, EnableStoring, previous))
    case EnableStoring =>
      if !ok then End(s, t)
      else Set(s.(stored := s.stored + {connection}, calm := false), t, Enabling(connection, EnablePatching, previous))
    case EnablePatching =>
      if !ok then Set(s, t, Enabling(connection, EnableRollingBack, previous))
      else
        Set(s.(settings := Settings(true, connection), stranded := s.stranded - {connection}), t,
          Enabling(connection,
            if previous != "" && previous != connection then EnableDeletingPrevious else EnableReporting, previous))
    case EnableRollingBack =>
      if ok then End(s.(stored := s.stored - {connection}, stranded := s.stranded - {connection}), t)
      else if s.settings.connection != connection then End(s.(stranded := s.stranded + {connection}), t)
      else End(s, t)
    case EnableDeletingPrevious =>
      if !ok then End(s.(stranded := if previous in s.stored then s.stranded + {previous} else s.stranded), t)
      else
        var cleared := s.(stored := s.stored - {previous}, stranded := s.stranded - {previous});
        Set(cleared, t, Enabling(connection, EnableReporting, previous))
    case EnableReporting => End(s, t)
  }

  predicate MayRenew(s: State, target: string) {
    s.settings.enabled && s.settings.connection == target && s.inProgress == 0
  }

  predicate MaySend(s: State, generation: nat) {
    s.inProgress == 0 && generation == s.generation
  }

  function Submit(s: State, t: nat, stage: SubmitStage, target: string, generation: nat, retried: bool): State {
    Set(s, t, Submitting(stage, target, generation, retried))
  }

  /** A renewal, from waiting for its lock to releasing it. */
  predicate IsRenewal(stage: SubmitStage) {
    !(stage.SubmitReading? || stage.SubmitLooking? || stage.SubmitChecking? || stage.SubmitPosting?)
  }

  function OnRenew(
    s: State, t: nat, stage: SubmitStage, target: string, generation: nat, retried: bool, ok: bool, found: bool): State
    requires IsRenewal(stage)
  {
    match stage
    case RenewQueued =>
      if s.renewHeld.Some? then s else Submit(s.(renewHeld := Some(t)), t, RenewReading, target, generation, retried)
    case RenewReading =>
      if !ok || !MayRenew(s, target) then End(s, t) else Submit(s, t, RenewLooking, target, generation, retried)
    case RenewLooking =>
      if !ok then End(s, t)
      else if found then Submit(s.(renewHeld := None), t, SubmitChecking, target, generation, retried)
      else Submit(s, t, RenewMinting, target, generation, retried)
    case RenewMinting =>
      if !ok then End(s, t) else Submit(s, t, RenewStoring, target, generation, retried)
    case RenewStoring =>
      if !ok then End(s, t)
      else
        var named := s.settings.connection == target;
        var saved := s.(stored := s.stored + {target}, stranded := if named then s.stranded else s.stranded + {target});
        Submit(saved, t, RenewPatching, target, generation, retried)
    case RenewPatching =>
      if !ok then End(s, t) else Submit(s.(renewHeld := None), t, SubmitChecking, target, generation, retried)
  }

  function OnSubmit(
    s: State, t: nat, stage: SubmitStage, target: string, generation: nat, retried: bool, ok: bool, found: bool): State
    requires !IsRenewal(stage)
  {
    match stage
    case SubmitReading =>
      if !ok || !s.settings.enabled || s.settings.connection == "" then End(s, t)
      else Submit(s, t, SubmitLooking, s.settings.connection, generation, retried)
    case SubmitLooking =>
      if !ok then End(s, t)
      else if found then Submit(s, t, SubmitChecking, target, generation, retried)
      else Submit(s, t, RenewQueued, target, generation, retried)
    case SubmitChecking =>
      if !MaySend(s, generation) then End(s, t)
      else Submit(s, t, SubmitPosting, target, generation, retried)
    case SubmitPosting =>
      if ok && found && !retried then Submit(s, t, RenewQueued, target, generation, true) else End(s, t)
  }

  function Next(s: State, event: Event): State {
    match event
    case BeginEnable(connection) => Set(s, s.next, Enabling(connection, EnableQueued, "")).(next := s.next + 1)
    case BeginDisable =>
      Set(s, s.next, Disabling(DisableQueued, ""))
        .(next := s.next + 1, generation := s.generation + 1, inProgress := s.inProgress + 1)
    case BeginSubmit =>
      if s.inProgress != 0 then s.(next := s.next + 1)
      else Set(s, s.next, Submitting(SubmitReading, "", s.generation, false)).(next := s.next + 1)
    case Resume(t, ok, found) =>
      if t !in s.tasks then s
      else
        match s.tasks[t]
        case Disabling(stage, previous) => OnDisable(s, t, stage, previous, ok)
        case Enabling(connection, stage, previous) => OnEnable(s, t, connection, stage, previous, ok)
        case Submitting(stage, target, generation, retried) =>
          if IsRenewal(stage) then OnRenew(s, t, stage, target, generation, retried, ok, found)
          else OnSubmit(s, t, stage, target, generation, retried, ok, found)
  }

  function Run(s: State, events: seq<Event>): State {
    if events == [] then s
    else
      var n := |events| - 1;
      Next(Run(s, events[..n]), events[n])
  }

  // ----- the invariant of a single connection -----

  predicate HoldsConfigure(task: Task) {
    match task
    case Disabling(stage, _) => stage != DisableQueued
    case Enabling(_, stage, _) => stage != EnableQueued
    case Submitting(_, _, _, _) => false
  }

  predicate HoldsRenew(task: Task) {
    match task
    case Disabling(stage, _) => stage.DisableReading? || stage.DisableDeleting? || stage.DisablePatching?
    case Enabling(_, _, _) => false
    case Submitting(stage, _, _, _) => stage.RenewReading? || Renewing(task)
  }

  /** A renewal that has seen the settings name its connection. */
  predicate Renewing(task: Task) {
    && task.Submitting?
    && (task.submit.RenewLooking? || task.submit.RenewMinting? || task.submit.RenewStoring? || task.submit.RenewPatching?)
  }

  /** An enable between storing its token and settling what the settings say. */
  predicate InWindow(task: Task) {
    task.Enabling? && (task.enable.EnablePatching? || task.enable.EnableRollingBack?)
  }

  /** An enable between overwriting the settings and deleting the token they named before. */
  predicate Replacing(task: Task) {
    task.Enabling? && task.enable.EnableDeletingPrevious?
  }

  /** An enable that has read the settings and not yet changed them. */
  predicate Remembering(task: Task) {
    InWindow(task) || (task.Enabling? && (task.enable.EnableMinting? || task.enable.EnableStoring?))
  }

  /** An enable that has patched the settings. */
  predicate Patched(task: Task) {
    task.Enabling? && (task.enable.EnableDeletingPrevious? || task.enable.EnableReporting?)
  }

  ghost predicate TaskKept(s: State, c: string, t: nat) {
    t in s.tasks ==>
      var task := s.tasks[t];
      && t < s.next
      && (HoldsConfigure(task) <==> s.configureHeld == Some(t))
      && (HoldsRenew(task) <==> s.renewHeld == Some(t))
      && (InWindow(task) && task.connection == c ==> c in s.stored)
      && (Remembering(task) ==> task.connection != "" && task.previous == s.settings.connection)
      && (Replacing(task) ==> task.previous != "" && task.previous != task.connection == s.settings.connection)
      && (Patched(task) ==>
            s.settings == Settings(true, task.connection) && (task.connection == c ==> c in s.stored))
      && (task.Disabling? && task.disable == DisableDeleting ==> task.previous == s.settings.connection)
      && (task.Disabling? && task.disable == DisablePatching ==> c in s.stored ==> c in s.stranded)
      && (task.Disabling? && task.disable == DisableReporting ==> s.settings.connection == "")
  }

  /** An enable has yet to settle what becomes of the token of `c`. */
  ghost predicate WindowOpen(s: State, c: string) {
    && s.configureHeld.Some? && s.configureHeld.value in s.tasks
    && var task := s.tasks[s.configureHeld.value];
       (InWindow(task) && task.connection == c) || (Replacing(task) && task.previous == c)
  }

  ghost predicate Global(s: State, c: string) {
    && c != ""
    && (s.settings == Settings(false, "") || (s.settings.enabled && s.settings.connection != ""))
    && (c in s.stranded ==> c in s.stored && s.settings.connection != c)
    && (c in s.stored && s.settings.connection != c ==> c in s.stranded || WindowOpen(s, c))
    && (s.configureHeld.Some? ==> s.configureHeld.value in s.tasks)
    && (s.renewHeld.Some? ==> s.renewHeld.value in s.tasks)
    && (s.calm ==> s.settings.connection == "")
    && (s.calm && s.configureHeld.Some? ==>
        !InWindow(s.tasks[s.configureHeld.value]) && !Replacing(s.tasks[s.configureHeld.value]))
  }

  ghost predicate Inv(s: State, c: string) {
    && Global(s, c)
    && (forall t {:trigger TaskKept(s, c, t)} :: TaskKept(s, c, t))
  }

  // ----- every step keeps it -----

  ghost predicate LockMoved(before: Option<nat>, after: Option<nat>, t: nat) {
    before == after || ((before == None || before == Some(t)) && (after == None || after == Some(t)))
  }

  /** What a step of call `t` may do to the rest, by the locks that `t` holds. */
  ghost predicate Polite(s: State, n: State, c: string, t: nat) {
    && n.next >= s.next && n.generation >= s.generation
    && (n.tasks == s.tasks - {t} || (t in n.tasks && n.tasks == s.tasks[t := n.tasks[t]]))
    && LockMoved(s.configureHeld, n.configureHeld, t)
    && LockMoved(s.renewHeld, n.renewHeld, t)
    && (s.configureHeld != Some(t) ==> n.settings == s.settings && s.stranded <= n.stranded && s.stored <= n.stored)
    && (s.configureHeld != Some(t) && s.renewHeld != Some(t) ==> n.stored == s.stored)
    && (s.renewHeld != Some(t) ==> n.settings.connection == s.settings.connection || n.settings.connection != "")
  }

  lemma OthersKept(s: State, n: State, c: string, t: nat, u: nat)
    requires TaskKept(s, c, u) && Polite(s, n, c, t) && u != t
    ensures TaskKept(n, c, u)
  {
  }

  lemma StepKeeps(s: State, n: State, c: string, t: nat)
    requires Inv(s, c) && Polite(s, n, c, t) && Global(n, c) && TaskKept(n, c, t)
    ensures Inv(n, c)
  {
    forall u ensures TaskKept(n, c, u) {
      assert TaskKept(s, c, u);
      if u != t {
        OthersKept(s, n, c, t, u);
      }
    }
  }

  lemma BeginKeeps(s: State, c: string, event: Event)
    requires Inv(s, c) && !event.Resume?
    ensures Inv(Next(s, event), c)
  {
    var n := Next(s, event);
    assert TaskKept(s, c, s.next);
    assert s.next !in s.tasks;
    assert s.tasks - {s.next} == s.tasks;
    StepKeeps(s, n, c, s.next);
  }

  /** The owner of the configuration lock, whose window the global part looks at. */
  lemma OwnerKept(s: State, c: string)
    requires Inv(s, c)
    ensures s.configureHeld.Some? ==> TaskKept(s, c, s.configureHeld.value)
  {
  }

  lemma DisablePolite(s: State, n: State, c: string, t: nat, ok: bool)
    requires Global(s, c) && TaskKept(s, c, t)
    requires t in s.tasks && s.tasks[t].Disabling? && n == OnDisable(s, t, s.tasks[t].disable, s.tasks[t].previous, ok)
    ensures Polite(s, n, c, t)
  {
  }

  lemma DisableOwn(s: State, n: State, c: string, t: nat, ok: bool)
    requires Global(s, c) && TaskKept(s, c, t)
    requires t in s.tasks && s.tasks[t].Disabling? && n == OnDisable(s, t, s.tasks[t].disable, s.tasks[t].previous, ok)
    ensures TaskKept(n, c, t)
  {
  }

  lemma DisableGlobal(s: State, n: State, c: string, t: nat, ok: bool)
    requires Global(s, c) && TaskKept(s, c, t)
    requires t in s.tasks && s.tasks[t].Disabling? && n == OnDisable(s, t, s.tasks[t].disable, s.tasks[t].previous, ok)
    ensures Global(n, c)
  {
  }

  lemma DisableKeeps(s: State, c: string, t: nat, ok: bool)
    requires Inv(s, c) && t in s.tasks && s.tasks[t].Disabling?
    ensures Inv(OnDisable(s, t, s.tasks[t].disable, s.tasks[t].previous, ok), c)
  {
    var n := OnDisable(s, t, s.tasks[t].disable, s.tasks[t].previous, ok);
    assert TaskKept(s, c, t);
    DisablePolite(s, n, c, t, ok);
    DisableOwn(s, n, c, t, ok);
    DisableGlobal(s, n, c, t, ok);
    StepKeeps(s, n, c, t);
  }

  lemma EnablePolite(s: State, n: State, c: string, t: nat, ok: bool)
    requires Global(s, c) && TaskKept(s, c, t)
    requires t in s.tasks && s.tasks[t].Enabling?
    requires n == OnEnable(s, t, s.tasks[t].connection, s.tasks[t].enable, s.tasks[t].previous, ok)
    ensures Polite(s, n, c, t)
  {
  }

  lemma EnableOwn(s: State, n: State, c: string, t: nat, ok: bool)
    requires Global(s, c) && TaskKept(s, c, t)
    requires t in s.tasks && s.tasks[t].Enabling?
    requires n == OnEnable(s, t, s.tasks[t].connection, s.tasks[t].enable, s.tasks[t].previous, ok)
    ensures TaskKept(n, c, t)
  {
  }

  lemma EnableGlobal(s: State, n: State, c: string, t: nat, ok: bool)
    requires Global(s, c) && TaskKept(s, c, t)
    requires t in s.tasks && s.tasks[t].Enabling?
    requires n == OnEnable(s, t, s.tasks[t].connection, s.tasks[t].enable, s.tasks[t].previous, ok)
    requires !InWindow(s.tasks[t]) && !Replacing(s.tasks[t])
    ensures Global(n, c)
  {
  }

  lemma SettleGlobal(s: State, n: State, c: string, t: nat, ok: bool)
    requires Global(s, c) && TaskKept(s, c, t)
    requires t in s.tasks && s.tasks[t].Enabling?
    requires n == OnEnable(s, t, s.tasks[t].connection, s.tasks[t].enable, s.tasks[t].previous, ok)
    requires InWindow(s.tasks[t]) || Replacing(s.tasks[t])
    ensures Global(n, c)
  {
  }

  lemma EnableKeeps(s: State, c: string, t: nat, ok: bool)
    requires Inv(s, c) && t in s.tasks && s.tasks[t].Enabling?
    ensures Inv(OnEnable(s, t, s.tasks[t].connection, s.tasks[t].enable, s.tasks[t].previous, ok), c)
  {
    var n := OnEnable(s, t, s.tasks[t].connection, s.tasks[t].enable, s.tasks[t].previous, ok);
    assert TaskKept(s, c, t);
    EnablePolite(s, n, c, t, ok);
    EnableOwn(s, n, c, t, ok);
    if InWindow(s.tasks[t]) || Replacing(s.tasks[t]) {
      SettleGlobal(s, n, c, t, ok);
    } else {
      EnableGlobal(s, n, c, t, ok);
    }
    StepKeeps(s, n, c, t);
  }

  lemma RenewPolite(
    s: State, n: State, c: string, t: nat,
    stage: SubmitStage, target: string, generation: nat, retried: bool, ok: bool, found: bool)
    requires Global(s, c) && TaskKept(s, c, t) && IsRenewal(stage)
    requires t in s.tasks && s.tasks[t] == Submitting(stage, target, generation, retried)
    requires n == OnRenew(s, t, stage, target, generation, retried, ok, found)
    ensures Polite(s, n, c, t)
  {
  }

  lemma RenewOwn(
    s: State, n: State, c: string, t: nat,
    stage: SubmitStage, target: string, generation: nat, retried: bool, ok: bool, found: bool)
    requires Global(s, c) && TaskKept(s, c, t) && IsRenewal(stage)
    requires t in s.tasks && s.tasks[t] == Submitting(stage, target, generation, retried)
    requires n == OnRenew(s, t, stage, target, generation, retried, ok, found)
    ensures TaskKept(n, c, t)
  {
  }

  lemma RenewGlobal(
    s: State, n: State, c: string, t: nat,
    stage: SubmitStage, target: string, generation: nat, retried: bool, ok: bool, found: bool)
    requires Global(s, c) && TaskKept(s, c, t) && IsRenewal(stage) && stage != RenewStoring
    requires t in s.tasks && s.tasks[t] == Submitting(stage, target, generation, retried)
    requires n == OnRenew(s, t, stage, target, generation, retried, ok, found)
    ensures Global(n, c)
  {
  }

  lemma RenewalStoresGlobal(
    s: State, n: State, c: string, t: nat,
    stage: SubmitStage, target: string, generation: nat, retried: bool, ok: bool, found: bool)
    requires Global(s, c) && TaskKept(s, c, t) && stage == RenewStoring
    requires t in s.tasks && s.tasks[t] == Submitting(stage, target, generation, retried)
    requires n == OnRenew(s, t, stage, target, generation, retried, ok, found)
    ensures Global(n, c)
  {
  }

  lemma DropKeeps(s: State, n: State, c: string, t: nat)
    requires Inv(s, c) && t in s.tasks && s.tasks[t].Submitting? && n == End(s, t)
    ensures Inv(n, c)
  {
    assert TaskKept(s, c, t);
    StepKeeps(s, n, c, t);
  }

  /** A submission that moves on without holding the renewal lock, before or after. */
  lemma MoveKeeps(s: State, n: State, c: string, t: nat, task: Task)
    requires Inv(s, c) && t in s.tasks && s.tasks[t].Submitting? && n == Set(s, t, task)
    requires task.Submitting? && !HoldsRenew(s.tasks[t]) && !HoldsRenew(task)
    requires task.generation == s.tasks[t].generation
    ensures Inv(n, c)
  {
    assert TaskKept(s, c, t);
    StepKeeps(s, n, c, t);
  }

  lemma SubmitKeeps(s: State, n: State, c: string, t: nat, ok: bool, found: bool)
    requires Inv(s, c) && t in s.tasks && s.tasks[t].Submitting? && n == Next(s, Resume(t, ok, found))
    ensures Inv(n, c)
  {
    assert TaskKept(s, c, t);
    var Submitting(stage, target, generation, retried) := s.tasks[t];
    if IsRenewal(stage) {
      RenewPolite(s, n, c, t, stage, target, generation, retried, ok, found);
      RenewOwn(s, n, c, t, stage, target, generation, retried, ok, found);
      if stage == RenewStoring {
        RenewalStoresGlobal(s, n, c, t, stage, target, generation, retried, ok, found);
      } else {
        RenewGlobal(s, n, c, t, stage, target, generation, retried, ok, found);
      }
      StepKeeps(s, n, c, t);
    } else {
      if t in n.tasks {
        MoveKeeps(s, n, c, t, n.tasks[t]);
      } else {
        DropKeeps(s, n, c, t);
      }
    }
  }

  // ----- whole runs -----

  /** Every enable of the run is for connection `c`. */
  predicate OneConnection(events: seq<Event>, c: string) {
    forall i :: 0 <= i < |events| && events[i].BeginEnable? ==> events[i].connection == c
  }

  lemma NextKeeps(s: State, c: string, event: Event)
    requires Inv(s, c)
    ensures Inv(Next(s, event), c)
  {
    if !event.Resume? {
      BeginKeeps(s, c, event);
    } else if event.task in s.tasks {
      match s.tasks[event.task]
      case Disabling(_, _) => DisableKeeps(s, c, event.task, event.ok);
      case Enabling(_, _, _) => EnableKeeps(s, c, event.task, event.ok);
      case Submitting(_, _, _, _) => SubmitKeeps(s, Next(s, event), c, event.task, event.ok, event.found);
    }
  }

  lemma {:induction false} RunKeeps(events: seq<Event>, c: string)
    requires c != ""
    ensures Inv(Run(START, events), c)
  {
    if events == [] {
      forall t ensures TaskKept(START, c, t) {
      }
    } else {
      var n := |events| - 1;
      RunKeeps(events[..n], c);
      NextKeeps(Run(START, events[..n]), c, events[n]);
    }
  }

  /** The call that an event resumes. */
  function Resumed(s: State, event: Event): Option<Task> {
    if event.Resume? && event.task in s.tasks then Some(s.tasks[event.task]) else None
  }

  /** A disable returns to its caller without raising. */
  predicate DisableReturns(s: State, event: Event) {
    var call := Resumed(s, event);
    call.Some? && call.value.Disabling? && call.value.disable.DisableReporting? && event.ok
  }

  /** An enable stores its token. */
  predicate EnableStores(s: State, event: Event) {
    var call := Resumed(s, event);
    call.Some? && call.value.Enabling? && call.value.enable.EnableStoring? && event.ok
  }

  /** The token of `c` is left stored while the settings do not name `c`, and nothing under way will delete it. */
  predicate Strands(s: State, event: Event, c: string) {
    var call := Resumed(s, event);
    && call.Some?
    && (RollbackFails(call.value, event, s.settings, c) || PreviousKept(call.value, event, s.stored, c)
     || StaleRenewal(call.value, event, s.settings, c))
  }

  /** An enable cannot take its token back, and the settings do not name its connection. */
  predicate RollbackFails(call: Task, event: Event, settings: Settings, c: string)
    requires event.Resume?
  {
    call.Enabling? && call.enable.EnableRollingBack? && !event.ok && call.connection == c != settings.connection
  }

  /** An enable cannot delete the token of the connection it replaced. */
  predicate PreviousKept(call: Task, event: Event, stored: set<string>, c: string)
    requires event.Resume?
  {
    Replacing(call) && !event.ok && call.previous == c && c in stored
  }

  /** A renewal stores a token for a connection that an enable has replaced in the meantime. */
  predicate StaleRenewal(call: Task, event: Event, settings: Settings, c: string)
    requires event.Resume?
  {
    call.Submitting? && call.submit.RenewStoring? && event.ok && call.target == c != settings.connection
  }

  /** An enable of `c` patches the settings or takes its token back, or an enable of another one deletes the token. */
  predicate Settles(s: State, event: Event, c: string) {
    var call := Resumed(s, event);
    && call.Some? && event.ok
    && ((InWindow(call.value) && call.value.connection == c) || (Replacing(call.value) && call.value.previous == c))
  }

  function Stranding(c: string): (State, Event) -> bool {
    (s: State, event: Event) => Strands(s, event, c)
  }

  function Settling(c: string): (State, Event) -> bool {
    (s: State, event: Event) => Settles(s, event, c)
  }

  /** Event `i` of the run is one of `kind`. */
  predicate Happens(events: seq<Event>, kind: (State, Event) -> bool, i: nat)
    requires i < |events|
  {
    kind(Run(START, events[..i]), events[i])
  }

  /** The run has an event of kind `on` and none of kind `off` after it. */
  ghost predicate Latched(events: seq<Event>, on: (State, Event) -> bool, off: (State, Event) -> bool) {
    exists i: nat | i < |events| ::
      Happens(events, on, i) && forall j: nat | i < j < |events| :: !Happens(events, off, j)
  }

  ghost predicate Disabled(events: seq<Event>) {
    Latched(events, DisableReturns, EnableStores)
  }

  ghost predicate Stranded(events: seq<Event>, c: string) {
    Latched(events, Stranding(c), Settling(c))
  }

  lemma HappensInPrefix(events: seq<Event>, kind: (State, Event) -> bool, n: nat, i: nat)
    requires i < n <= |events|
    ensures Happens(events[..n], kind, i) == Happens(events, kind, i)
  {
    assert events[..n][..i] == events[..i];
  }

  lemma LatchStays(events: seq<Event>, on: (State, Event) -> bool, off: (State, Event) -> bool, n: nat)
    requires n + 1 == |events| && Latched(events[..n], on, off) && !Happens(events, off, n)
    ensures Latched(events, on, off)
  {
    var before := events[..n];
    var i: nat :| i < n && Happens(before, on, i) && forall j: nat | i < j < n :: !Happens(before, off, j);
    HappensInPrefix(events, on, n, i);
    forall j: nat | i < j < |events| ensures !Happens(events, off, j) {
      if j < n {
        HappensInPrefix(events, off, n, j);
      }
    }
  }

  lemma LatchWas(events: seq<Event>, on: (State, Event) -> bool, off: (State, Event) -> bool, n: nat)
    requires n + 1 == |events| && Latched(events, on, off) && !Happens(events, on, n)
    ensures Latched(events[..n], on, off) && !Happens(events, off, n)
  {
    var before := events[..n];
    var i: nat :|
      i <= n && Happens(events, on, i) && forall j: nat | i < j < |events| :: !Happens(events, off, j);
    HappensInPrefix(events, on, n, i);
    forall j: nat | i < j < n ensures !Happens(before, off, j) {
      HappensInPrefix(events, off, n, j);
    }
  }

  lemma LatchStep(events: seq<Event>, on: (State, Event) -> bool, off: (State, Event) -> bool, n: nat)
    requires n + 1 == |events|
    ensures Latched(events, on, off) ==
      (Happens(events, on, n) || (Latched(events[..n], on, off) && !Happens(events, off, n)))
  {
    if Latched(events[..n], on, off) && !Happens(events, off, n) {
      LatchStays(events, on, off, n);
    }
    if Latched(events, on, off) && !Happens(events, on, n) {
      LatchWas(events, on, off, n);
    }
  }

  lemma CalmStep(s: State, event: Event)
    ensures Next(s, event).calm <==> DisableReturns(s, event) || (s.calm && !EnableStores(s, event))
  {
  }

  ghost predicate StrandedAgrees(s: State, event: Event, c: string) {
    c in Next(s, event).stranded <==> Strands(s, event, c) || (c in s.stranded && !Settles(s, event, c))
  }

  lemma EnableStranded(s: State, c: string, event: Event)
    requires event.Resume? && event.task in s.tasks && s.tasks[event.task].Enabling?
    ensures StrandedAgrees(s, event, c)
  {
  }

  lemma SubmitStranded(s: State, c: string, event: Event)
    requires event.Resume? && event.task in s.tasks && s.tasks[event.task].Submitting?
    ensures StrandedAgrees(s, event, c)
  {
  }

  lemma StrandedStep(s: State, c: string, event: Event)
    ensures StrandedAgrees(s, event, c)
  {
    if event.Resume? && event.task in s.tasks {
      match s.tasks[event.task]
      case Enabling(_, _, _) => EnableStranded(s, c, event);
      case Submitting(_, _, _, _) => SubmitStranded(s, c, event);
      case Disabling(_, _) =>
    }
  }

  lemma {:induction false} CalmIsDisabled(events: seq<Event>)
    ensures Run(START, events).calm <==> Disabled(events)
  {
    if events != [] {
      var n := |events| - 1;
      CalmIsDisabled(events[..n]);
      CalmStep(Run(START, events[..n]), events[n]);
      LatchStep(events, DisableReturns, EnableStores, n);
    }
  }

  lemma {:induction false} StrandedIsKept(events: seq<Event>, c: string)
    requires c != ""
    ensures c in Run(START, events).stranded <==> Stranded(events, c)
  {
    if events != [] {
      var n := |events| - 1;
      StrandedIsKept(events[..n], c);
      StrandedStep(Run(START, events[..n]), c, events[n]);
      LatchStep(events, Stranding(c), Settling(c), n);
    }
  }

  /**
   Once a disable has returned and until an enable stores a token, whatever else was in flight, the settings name no
   connection, and the token of a connection is stored exactly when it was stranded and not settled since.
   */
  lemma DisabledMeansForgotten(events: seq<Event>, c: string)
    requires c != "" && Disabled(events)
    ensures Run(START, events).settings == Settings(false, "")
    ensures c in Run(START, events).stored <==> Stranded(events, c)
  {
    RunKeeps(events, c);
    CalmIsDisabled(events);
    StrandedIsKept(events, c);
    OwnerKept(Run(START, events), c);
  }

  // ----- a single connection -----

  ghost predicate SingleTask(s: State, c: string, t: nat) {
    t in s.tasks ==>
      var task := s.tasks[t];
      && (task.Enabling? ==> task.connection == c && !Replacing(task) && (task.previous == "" || task.previous == c))
      && (task.Submitting? ==> task.target == "" || task.target == c)
      && (Renewing(task) ==> s.settings.connection == c && task.target == c)
  }

  ghost predicate Single(s: State, c: string) {
    && (s.settings.connection == "" || s.settings.connection == c)
    && s.stored <= {c}
    && (forall t {:trigger SingleTask(s, c, t)} :: SingleTask(s, c, t))
  }

  function Subject(s: State, event: Event): nat {
    if event.Resume? then event.task else s.next
  }

  lemma BeginPolite(s: State, c: string, event: Event)
    requires Inv(s, c) && !event.Resume?
    ensures Polite(s, Next(s, event), c, s.next)
  {
    assert TaskKept(s, c, s.next);
    assert s.tasks - {s.next} == s.tasks;
  }

  lemma SubmitPolite(s: State, n: State, c: string, t: nat, ok: bool, found: bool)
    requires Inv(s, c) && t in s.tasks && s.tasks[t].Submitting? && !IsRenewal(s.tasks[t].submit)
    requires n == Next(s, Resume(t, ok, found))
    ensures Polite(s, n, c, t)
  {
    assert TaskKept(s, c, t);
    assert n == End(s, t) || (t in n.tasks && n == Set(s, t, n.tasks[t]));
  }

  lemma NextPolite(s: State, c: string, event: Event)
    requires Inv(s, c)
    ensures Polite(s, Next(s, event), c, Subject(s, event))
  {
    var t, n := Subject(s, event), Next(s, event);
    if !event.Resume? {
      BeginPolite(s, c, event);
    } else if t in s.tasks {
      assert TaskKept(s, c, t);
      match s.tasks[t]
      case Disabling(_, _) => DisablePolite(s, n, c, t, event.ok);
      case Enabling(_, _, _) => EnablePolite(s, n, c, t, event.ok);
      case Submitting(stage, target, generation, retried) =>
        if IsRenewal(stage) {
          RenewPolite(s, n, c, t, stage, target, generation, retried, event.ok, event.found);
        } else {
          SubmitPolite(s, n, c, t, event.ok, event.found);
        }
    } else {
      assert s.tasks - {t} == s.tasks;
    }
  }

  ghost predicate SingleAt(n: State, c: string, t: nat) {
    SingleTask(n, c, t) && (n.settings.connection == "" || n.settings.connection == c) && n.stored <= {c}
  }

  lemma DisableSingle(s: State, n: State, c: string, t: nat, ok: bool)
    requires SingleAt(s, c, t)
    requires t in s.tasks && s.tasks[t].Disabling? && n == OnDisable(s, t, s.tasks[t].disable, s.tasks[t].previous, ok)
    ensures SingleAt(n, c, t)
  {
  }

  lemma EnableSingle(s: State, n: State, c: string, t: nat, ok: bool)
    requires SingleAt(s, c, t)
    requires t in s.tasks && s.tasks[t].Enabling?
    requires n == OnEnable(s, t, s.tasks[t].connection, s.tasks[t].enable, s.tasks[t].previous, ok)
    requires !InWindow(s.tasks[t])
    ensures SingleAt(n, c, t)
  {
  }

  lemma SettleSingle(s: State, n: State, c: string, t: nat, ok: bool)
    requires SingleAt(s, c, t)
    requires t in s.tasks && s.tasks[t].Enabling?
    requires n == OnEnable(s, t, s.tasks[t].connection, s.tasks[t].enable, s.tasks[t].previous, ok)
    requires InWindow(s.tasks[t])
    ensures SingleAt(n, c, t)
  {
  }

  lemma SubmitSingle(
    s: State, n: State, c: string, t: nat,
    stage: SubmitStage, target: string, generation: nat, retried: bool, ok: bool, found: bool)
    requires SingleAt(s, c, t)
    requires t in s.tasks && s.tasks[t] == Submitting(stage, target, generation, retried)
    requires !IsRenewal(stage) && n == OnSubmit(s, t, stage, target, generation, retried, ok, found)
    ensures SingleAt(n, c, t)
  {
  }

  lemma RenewSingle(
    s: State, n: State, c: string, t: nat,
    stage: SubmitStage, target: string, generation: nat, retried: bool, ok: bool, found: bool)
    requires Global(s, c) && SingleAt(s, c, t)
    requires t in s.tasks && s.tasks[t] == Submitting(stage, target, generation, retried)
    requires IsRenewal(stage) && n == OnRenew(s, t, stage, target, generation, retried, ok, found)
    ensures SingleAt(n, c, t)
  {
  }

  lemma SubjectSingle(s: State, c: string, event: Event)
    requires Global(s, c) && Single(s, c)
    requires event.BeginEnable? ==> event.connection == c
    ensures SingleAt(Next(s, event), c, Subject(s, event))
  {
    var t, n := Subject(s, event), Next(s, event);
    assert SingleTask(s, c, t);
    if event.Resume? && t in s.tasks {
      match s.tasks[t]
      case Disabling(_, _) => DisableSingle(s, n, c, t, event.ok);
      case Enabling(_, _, _) =>
        if InWindow(s.tasks[t]) {
          SettleSingle(s, n, c, t, event.ok);
        } else {
          EnableSingle(s, n, c, t, event.ok);
        }
      case Submitting(stage, target, generation, retried) =>
        if IsRenewal(stage) {
          RenewSingle(s, n, c, t, stage, target, generation, retried, event.ok, event.found);
        } else {
          SubmitSingle(s, n, c, t, stage, target, generation, retried, event.ok, event.found);
        }
    }
  }

  lemma NextSingle(s: State, c: string, event: Event)
    requires Inv(s, c) && Single(s, c)
    requires event.BeginEnable? ==> event.connection == c
    ensures Single(Next(s, event), c)
  {
    var t, n := Subject(s, event), Next(s, event);
    NextPolite(s, c, event);
    SubjectSingle(s, c, event);
    forall u ensures SingleTask(n, c, u) {
      assert SingleTask(s, c, u);
      assert TaskKept(s, c, u);
    }
  }

  lemma {:induction false} RunSingle(events: seq<Event>, c: string)
    requires c != "" && OneConnection(events, c)
    ensures Single(Run(START, events), c)
  {
    if events == [] {
      forall t ensures SingleTask(START, c, t) {
      }
    } else {
      var n := |events| - 1;
      RunSingle(events[..n], c);
      RunKeeps(events[..n], c);
      NextSingle(Run(START, events[..n]), c, events[n]);
    }
  }

  function RollbackFailing(c: string): (State, Event) -> bool {
    (s: State, event: Event) =>
      var call := Resumed(s, event);
      call.Some? && RollbackFails(call.value, event, s.settings, c)
  }

  /** With one connection no renewal is stale and nothing is replaced: only a failed rollback strands a token. */
  lemma OnlyRollbackStrands(events: seq<Event>, c: string, i: nat)
    requires c != "" && OneConnection(events, c) && i < |events|
    ensures Happens(events, Stranding(c), i) == Happens(events, RollbackFailing(c), i)
  {
    RunSingle(events[..i], c);
    if events[i].Resume? {
      assert SingleTask(Run(START, events[..i]), c, events[i].task);
    }
  }

  lemma OneConnectionIsForgotten(events: seq<Event>, c: string)
    requires c != "" && OneConnection(events, c) && Disabled(events)
    ensures Run(START, events).stored == if Latched(events, RollbackFailing(c), Settling(c)) then {c} else {}
  {
    forall i: nat | i < |events|
      ensures Happens(events, Stranding(c), i) == Happens(events, RollbackFailing(c), i)
    {
      OnlyRollbackStrands(events, c, i);
    }
    RunSingle(events, c);
    DisabledMeansForgotten(events, c);
  }

  // ----- the guarantee does fail: runs that strand a token -----

  /** The awaited operation of call `t` succeeds and finds nothing. */
  function Success(t: nat): Event {
    Resume(t, true, false)
  }

  lemma Then(events: seq<Event>, s: State, event: Event) returns (longer: seq<Event>, n: State)
    requires s == Run(START, events)
    ensures n == Next(s, event) == Run(START, longer)
    ensures OneConnection(events, "a") && (event.BeginEnable? ==> event.connection == "a") ==> OneConnection(longer, "a")
  {
    longer, n := events + [event], Next(s, event);
    assert longer[..|events|] == events;
  }

  /** An enable, undisturbed up to the patch of the settings. */
  lemma EnableUndisturbed(events: seq<Event>, s: State, c: string) returns (longer: seq<Event>, n: State)
    requires s == Run(START, events) && s.configureHeld.None? && c != ""
    ensures n == Run(START, longer)
    ensures OneConnection(events, "a") && c == "a" ==> OneConnection(longer, "a")
    ensures n == s.(tasks := s.tasks[s.next := Enabling(c, EnablePatching, s.settings.connection)], next := s.next + 1,
      configureHeld := Some(s.next), calm := false, stored := s.stored + {c})
  {
    var t := s.next;
    longer, n := Then(events, s, BeginEnable(c));
    assert n.tasks[t] == Enabling(c, EnableQueued, "");
    longer, n := Then(longer, n, Success(t));
    assert n.tasks[t] == Enabling(c, EnableReading, "");
    longer, n := Then(longer, n, Success(t));
    assert n.tasks[t] == Enabling(c, EnableMinting, s.settings.connection);
    longer, n := Then(longer, n, Success(t));
    assert n.tasks[t] == Enabling(c, EnableStoring, s.settings.connection);
    longer, n := Then(longer, n, Success(t));
    assert n.tasks == s.tasks[t := Enabling(c, EnablePatching, s.settings.connection)];
  }

  /** A disable, undisturbed up to reading the settings under both locks. */
  lemma DisableLocks(events: seq<Event>, s: State) returns (longer: seq<Event>, n: State)
    requires s == Run(START, events) && s.configureHeld.None? && s.renewHeld.None?
    ensures n == Run(START, longer)
    ensures OneConnection(events, "a") ==> OneConnection(longer, "a")
    ensures s.next in n.tasks && n.tasks[s.next] == Disabling(DisableReading, "")
    ensures n.stored == s.stored && n.settings == s.settings
  {
    var t := s.next;
    longer, n := Then(events, s, BeginDisable);
    assert n.tasks[t] == Disabling(DisableQueued, "");
    longer, n := Then(longer, n, Success(t));
    assert n.tasks[t] == Disabling(DisableLocking, "");
    longer, n := Then(longer, n, Success(t));
  }

  /** A disable that runs alone: it forgets the connection that the settings name, and returns. */
  lemma DisableUndisturbed(events: seq<Event>, s: State) returns (longer: seq<Event>, n: State)
    requires s == Run(START, events) && s.configureHeld.None? && s.renewHeld.None?
    ensures n == Run(START, longer) && n.calm
    ensures OneConnection(events, "a") ==> OneConnection(longer, "a")
    ensures n.stored == if s.settings.connection == "" then s.stored else s.stored - {s.settings.connection}
  {
    var t, c := s.next, s.settings.connection;
    longer, n := DisableLocks(events, s);
    longer, n := Then(longer, n, Success(t));
    if c != "" {
      assert n.tasks[t] == Disabling(DisableDeleting, c);
      longer, n := Then(longer, n, Success(t));
      assert n.tasks[t] == Disabling(DisablePatching, c);
    }
    longer, n := Then(longer, n, Success(t));
    assert n.tasks[t].disable == DisableReporting;
    longer, n := Then(longer, n, Success(t));
  }

  /** A submission that finds no token, up to waiting for the renewal lock. */
  lemma SubmissionUndisturbed(events: seq<Event>, s: State) returns (longer: seq<Event>, n: State)
    requires s == Run(START, events) && s.inProgress == 0 && s.settings.enabled && s.settings.connection != ""
    ensures n == Run(START, longer)
    ensures n == s.(tasks := s.tasks[s.next := Submitting(RenewQueued, s.settings.connection, s.generation, false)],
      next := s.next + 1)
  {
    var t, c, g := s.next, s.settings.connection, s.generation;
    longer, n := Then(events, s, BeginSubmit);
    assert n.tasks[t] == Submitting(SubmitReading, "", g, false);
    longer, n := Then(longer, n, Success(t));
    assert n.tasks[t] == Submitting(SubmitLooking, c, g, false);
    longer, n := Then(longer, n, Success(t));
    assert n.tasks == s.tasks[t := Submitting(RenewQueued, c, g, false)];
  }

  /** A renewal, undisturbed up to looking for a token under its lock. */
  lemma RenewalLooks(events: seq<Event>, s: State, t: nat, g: nat) returns (longer: seq<Event>, n: State)
    requires s == Run(START, events) && s.renewHeld.None? && s.inProgress == 0
    requires s.settings.enabled && s.settings.connection != ""
    requires t in s.tasks && s.tasks[t] == Submitting(RenewQueued, s.settings.connection, g, false)
    ensures n == Run(START, longer)
    ensures n == s.(tasks := s.tasks[t := Submitting(RenewLooking, s.settings.connection, g, false)],
      renewHeld := Some(t))
  {
    longer, n := Then(events, s, Success(t));
    assert n.tasks[t] == Submitting(RenewReading, s.settings.connection, g, false);
    longer, n := Then(longer, n, Success(t));
    assert n.tasks == s.tasks[t := Submitting(RenewLooking, s.settings.connection, g, false)];
  }

  /** A renewal, undisturbed up to storing the new token. */
  lemma RenewalUndisturbed(events: seq<Event>, s: State, t: nat, g: nat) returns (longer: seq<Event>, n: State)
    requires s == Run(START, events) && s.renewHeld.None? && s.inProgress == 0
    requires s.settings.enabled && s.settings.connection != ""
    requires t in s.tasks && s.tasks[t] == Submitting(RenewQueued, s.settings.connection, g, false)
    ensures n == Run(START, longer)
    ensures n == s.(tasks := s.tasks[t := Submitting(RenewStoring, s.settings.connection, g, false)],
      renewHeld := Some(t))
  {
    var c := s.settings.connection;
    longer, n := RenewalLooks(events, s, t, g);
    longer, n := Then(longer, n, Success(t));
    assert n.tasks[t] == Submitting(RenewMinting, c, g, false);
    longer, n := Then(longer, n, Success(t));
    assert n.tasks == s.tasks[t := Submitting(RenewStoring, c, g, false)];
  }

  /** An enable whose patch and rollback both fail, then a disable that returns: the token is still stored. */
  lemma FailedRollbackRun() returns (events: seq<Event>)
    ensures OneConnection(events, "a") && Disabled(events)
    ensures Run(START, events).stored == {"a"}
  {
    var s := START;
    events, s := EnableUndisturbed([], s, "a");
    events, s := Then(events, s, Resume(0, false, false));
    assert s.tasks[0] == Enabling("a", EnableRollingBack, "");
    events, s := Then(events, s, Resume(0, false, false));
    assert s.settings == Settings(false, "") && s.stored == {"a"};
    events, s := DisableUndisturbed(events, s);
    CalmIsDisabled(events);
  }

  /** Call `t` replaces connection `a` by `b` while another call holds the renewal lock. */
  lemma ReplaceUndisturbed(events: seq<Event>, s: State, t: nat) returns (longer: seq<Event>, n: State)
    requires s == Run(START, events) && s.configureHeld == Some(t) && s.renewHeld != Some(t)
    requires t in s.tasks && s.tasks[t] == Enabling("b", EnablePatching, "a")
    ensures n == Run(START, longer) && n.configureHeld.None? && n.renewHeld == s.renewHeld
    ensures n.settings == Settings(true, "b") && n.stored == s.stored - {"a"} && n.tasks == s.tasks - {t}
  {
    longer, n := Then(events, s, Success(t));
    assert n.tasks[t] == Enabling("b", EnableDeletingPrevious, "a");
    longer, n := Then(longer, n, Success(t));
    assert n.tasks[t] == Enabling("b", EnableReporting, "a");
    longer, n := Then(longer, n, Success(t));
  }

  /** Call `t` stores and dates the token it has renewed. */
  lemma StoreUndisturbed(events: seq<Event>, s: State, t: nat) returns (longer: seq<Event>, n: State)
    requires s == Run(START, events) && s.renewHeld == Some(t) && t in s.tasks && s.tasks[t].Submitting?
    requires s.tasks[t].submit == RenewStoring
    ensures n == Run(START, longer) && n.configureHeld == s.configureHeld && n.renewHeld.None?
    ensures n.settings == s.settings && n.stored == s.stored + {s.tasks[t].target}
  {
    longer, n := Then(events, s, Success(t));
    assert n.tasks[t] == s.tasks[t].(submit := RenewPatching);
    longer, n := Then(longer, n, Success(t));
  }

  /** A renewal that outlasts an enable of another connection, then a disable that returns: the token is still stored. */
  lemma StaleRenewalRun() returns (events: seq<Event>)
    ensures Disabled(events)
    ensures Run(START, events).stored == {"a"}
  {
    var s := START;
    events, s := EnableUndisturbed([], s, "a");
    events, s := Then(events, s, Success(0));
    events, s := Then(events, s, Success(0));
    assert s.settings == Settings(true, "a") && s.configureHeld.None? && s.next == 1;
    events, s := SubmissionUndisturbed(events, s);
    events, s := RenewalUndisturbed(events, s, 1, 0);
    events, s := EnableUndisturbed(events, s, "b");
    events, s := ReplaceUndisturbed(events, s, 2);
    events, s := StoreUndisturbed(events, s, 1);
    assert s.stored == {"a", "b"};
    events, s := DisableUndisturbed(events, s);
    CalmIsDisabled(events);
  }

  // ----- submissions that a disable overtakes -----

  /** Call `t` comes to the check made just before its report is sent. */
  predicate AtSendCheck(s: State, event: Event, t: nat) {
    event.Resume? && event.task == t && t in s.tasks && s.tasks[t].Submitting? && s.tasks[t].submit.SubmitChecking?
  }

  /** The check made just before a report is sent lets it go. */
  predicate PassesSendCheck(s: State, event: Event, t: nat) {
    AtSendCheck(s, event, t) && MaySend(s, s.tasks[t].generation)
  }

  /** No submission among the first `k` calls is of generation `g` or later. */
  ghost predicate Overtaken(s: State, k: nat, g: nat) {
    && k <= s.next && g <= s.generation
    && forall t | t in s.tasks && t < k && s.tasks[t].Submitting? :: s.tasks[t].generation < g
  }

  /** A step of call `t` changes neither the generation nor what kind of call it is; ending a disable counts it off. */
  ghost predicate CallKept(s: State, n: State, t: nat) {
    && n.generation == s.generation && n.next == s.next
    && n.tasks - {t} == s.tasks - {t}
    && (t in n.tasks ==> t in s.tasks && (n.tasks[t].Disabling? <==> s.tasks[t].Disabling?))
    && (t in n.tasks ==> (n.tasks[t].Submitting? <==> s.tasks[t].Submitting?))
    && (t in n.tasks && n.tasks[t].Submitting? ==> n.tasks[t].generation == s.tasks[t].generation)
    && n.inProgress == s.inProgress - if t in s.tasks && t !in n.tasks && s.tasks[t].Disabling? then 1 else 0
  }

  lemma DisableGeneration(s: State, t: nat, stage: DisableStage, previous: string, ok: bool)
    requires t in s.tasks && s.tasks[t].Disabling?
    ensures CallKept(s, OnDisable(s, t, stage, previous, ok), t)
  {
  }

  lemma EnableGeneration(s: State, t: nat, connection: string, stage: EnableStage, previous: string, ok: bool)
    requires t in s.tasks && s.tasks[t].Enabling?
    ensures CallKept(s, OnEnable(s, t, connection, stage, previous, ok), t)
  {
  }

  lemma RenewGeneration(
    s: State, t: nat, stage: SubmitStage, target: string, generation: nat, retried: bool, ok: bool, found: bool)
    requires t in s.tasks && s.tasks[t] == Submitting(stage, target, generation, retried) && IsRenewal(stage)
    ensures CallKept(s, OnRenew(s, t, stage, target, generation, retried, ok, found), t)
  {
  }

  lemma SubmitGeneration(
    s: State, t: nat, stage: SubmitStage, target: string, generation: nat, retried: bool, ok: bool, found: bool)
    requires t in s.tasks && s.tasks[t] == Submitting(stage, target, generation, retried) && !IsRenewal(stage)
    ensures CallKept(s, OnSubmit(s, t, stage, target, generation, retried, ok, found), t)
  {
  }

  lemma ResumeGeneration(s: State, event: Event)
    requires event.Resume?
    ensures CallKept(s, Next(s, event), event.task)
  {
    var t := event.task;
    if t in s.tasks {
      match s.tasks[t]
      case Disabling(stage, previous) => DisableGeneration(s, t, stage, previous, event.ok);
      case Enabling(connection, stage, previous) => EnableGeneration(s, t, connection, stage, previous, event.ok);
      case Submitting(stage, target, generation, retried) =>
        if IsRenewal(stage) {
          RenewGeneration(s, t, stage, target, generation, retried, event.ok, event.found);
        } else {
          SubmitGeneration(s, t, stage, target, generation, retried, event.ok, event.found);
        }
    }
  }

  lemma CallStaysOvertaken(s: State, n: State, t: nat, k: nat, g: nat)
    requires Overtaken(s, k, g) && CallKept(s, n, t)
    ensures Overtaken(n, k, g)
  {
    forall u | u in n.tasks && u < k && n.tasks[u].Submitting? ensures n.tasks[u].generation < g {
      assert u != t ==> u in n.tasks - {t};
    }
  }

  lemma OvertakenKept(s: State, event: Event, k: nat, g: nat)
    requires Overtaken(s, k, g)
    ensures Overtaken(Next(s, event), k, g)
  {
    if event.Resume? {
      ResumeGeneration(s, event);
      CallStaysOvertaken(s, Next(s, event), event.task, k, g);
    }
  }

  function Disables(s: State): set<nat> {
    set t | t in s.tasks && s.tasks[t].Disabling?
  }

  /** The calls are numbered, generations have begun, and the disables under way are counted. */
  ghost predicate Accounted(s: State) {
    && (forall t | t in s.tasks :: t < s.next)
    && (forall t | t in s.tasks && s.tasks[t].Submitting? :: s.tasks[t].generation <= s.generation)
    && s.inProgress == |Disables(s)|
  }

  lemma DisablesAfter(s: State, n: State, t: nat)
    requires CallKept(s, n, t)
    ensures |Disables(n)| - |Disables(s)| == n.inProgress - s.inProgress
  {
    forall u ensures u != t ==> (u in Disables(n) <==> u in Disables(s)) {
      assert u != t ==> (u in n.tasks <==> u in n.tasks - {t}) && (u in s.tasks <==> u in s.tasks - {t});
    }
    if t in Disables(s) && t !in n.tasks {
      assert Disables(n) == Disables(s) - {t};
    } else {
      assert Disables(n) == Disables(s);
    }
  }

  lemma CallStaysAccounted(s: State, n: State, t: nat)
    requires Accounted(s) && CallKept(s, n, t)
    ensures Accounted(n)
  {
    DisablesAfter(s, n, t);
    forall u | u in n.tasks ensures u < n.next && (n.tasks[u].Submitting? ==> n.tasks[u].generation <= n.generation) {
      assert u != t ==> u in n.tasks - {t};
    }
  }

  lemma DisableIsCounted(s: State)
    requires Accounted(s)
    ensures Accounted(Next(s, BeginDisable))
  {
    assert Disables(Next(s, BeginDisable)) == Disables(s) + {s.next};
  }

  lemma BeginIsAccounted(s: State, event: Event)
    requires Accounted(s) && (event.BeginEnable? || event.BeginSubmit?)
    ensures Accounted(Next(s, event))
  {
    assert Disables(Next(s, event)) == Disables(s);
  }

  lemma AccountedKept(s: State, event: Event)
    requires Accounted(s)
    ensures Accounted(Next(s, event))
  {
    if event.Resume? {
      ResumeGeneration(s, event);
      CallStaysAccounted(s, Next(s, event), event.task);
    } else if event.BeginDisable? {
      DisableIsCounted(s);
    } else {
      BeginIsAccounted(s, event);
    }
  }

  lemma DisableOvertakes(s: State)
    requires Accounted(s)
    ensures Overtaken(Next(s, BeginDisable), s.next, s.generation + 1)
  {
  }

  /** Call `t` has been numbered, and has ended unless `live`. */
  ghost predicate Known(s: State, t: nat, live: bool) {
    t < s.next && (t in s.tasks ==> live)
  }

  lemma NumberStays(s: State, event: Event, t: nat, live: bool)
    requires Known(s, t, live)
    ensures Known(Next(s, event), t, live)
  {
    if event.Resume? {
      ResumeGeneration(s, event);
      CallStaysKnown(s, Next(s, event), event.task, t, live);
    }
  }

  lemma CallStaysKnown(s: State, n: State, u: nat, t: nat, live: bool)
    requires Known(s, t, live) && CallKept(s, n, u)
    ensures Known(n, t, live)
  {
    assert t != u && t in n.tasks ==> t in n.tasks - {u};
  }

  /** Call `t`, if it has not ended, is a submission of the current generation, and no disable is under way. */
  ghost predicate Current(s: State, t: nat) {
    s.inProgress == 0 && (t in s.tasks ==> s.tasks[t].Submitting? && s.tasks[t].generation == s.generation)
  }

  lemma CallStaysCurrent(s: State, n: State, u: nat, t: nat)
    requires Current(s, t) && Accounted(s) && CallKept(s, n, u)
    ensures Current(n, t)
  {
    assert Disables(s) == {};
    assert u in s.tasks && s.tasks[u].Disabling? ==> u in Disables(s);
    assert t != u && t in n.tasks ==> t in n.tasks - {u};
  }

  lemma CurrentKept(s: State, event: Event, t: nat)
    requires Current(s, t) && Accounted(s) && event != BeginDisable && t < s.next
    ensures Current(Next(s, event), t)
  {
    if event.Resume? {
      ResumeGeneration(s, event);
      CallStaysCurrent(s, Next(s, event), event.task, t);
    }
  }

  lemma SubmitIsCurrent(s: State)
    requires s.inProgress == 0
    ensures Current(Next(s, BeginSubmit), s.next) && s.next < Next(s, BeginSubmit).next
  {
  }

  predicate StepsTo(s: State, event: Event, n: State) {
    n == Next(s, event)
  }

  /** The states of the run, one more than its events. */
  ghost predicate IsTrace(trace: seq<State>, events: seq<Event>) {
    && |trace| == |events| + 1 && trace[0] == START
    && forall i: nat | i < |events| :: StepsTo(trace[i], events[i], trace[i + 1])
  }

  lemma {:induction false} TraceOf(events: seq<Event>) returns (trace: seq<State>)
    ensures IsTrace(trace, events) && trace[|events|] == Run(START, events)
  {
    if events == [] {
      trace := [START];
    } else {
      var n := |events| - 1;
      var before := TraceOf(events[..n]);
      trace := before + [Run(START, events)];
      forall i: nat | i < |events| ensures StepsTo(trace[i], events[i], trace[i + 1]) {
        if i < n {
          assert StepsTo(before[i], events[..n][i], before[i + 1]);
        }
      }
    }
  }

  /** In every state of every run the counter is the number of disables that have begun and not ended. */
  lemma {:induction false} TraceIsAccounted(trace: seq<State>, events: seq<Event>, i: nat)
    requires IsTrace(trace, events) && i <= |events|
    ensures Accounted(trace[i])
  {
    if i == 0 {
      assert Disables(START) == {};
    } else {
      TraceIsAccounted(trace, events, i - 1);
      assert StepsTo(trace[i - 1], events[i - 1], trace[i]);
      AccountedKept(trace[i - 1], events[i - 1]);
    }
  }

  /** A call's number is never used again, and a call that has ended stays so. */
  lemma {:induction false} NumbersStay(trace: seq<State>, events: seq<Event>, i: nat, j: nat, t: nat)
    requires IsTrace(trace, events) && i <= j <= |events| && t < trace[i].next
    ensures Known(trace[j], t, t in trace[i].tasks)
    decreases j
  {
    if i < j {
      NumbersStay(trace, events, i, j - 1, t);
      assert StepsTo(trace[j - 1], events[j - 1], trace[j]);
      NumberStays(trace[j - 1], events[j - 1], t, t in trace[i].tasks);
    }
  }

  lemma {:induction false} StaysOvertaken(trace: seq<State>, events: seq<Event>, b: nat, j: nat)
    requires IsTrace(trace, events) && b < j <= |events| && events[b] == BeginDisable
    ensures Overtaken(trace[j], trace[b].next, trace[b].generation + 1)
    decreases j
  {
    assert StepsTo(trace[j - 1], events[j - 1], trace[j]);
    if j == b + 1 {
      TraceIsAccounted(trace, events, b);
      DisableOvertakes(trace[b]);
    } else {
      StaysOvertaken(trace, events, b, j - 1);
      OvertakenKept(trace[j - 1], events[j - 1], trace[b].next, trace[b].generation + 1);
    }
  }

  /** No submission that began before a disable began passes a send check after that. */
  lemma OvertakenNeverPasses(trace: seq<State>, events: seq<Event>, b: nat, j: nat, t: nat)
    requires IsTrace(trace, events) && b < j < |events| && events[b] == BeginDisable && t < trace[b].next
    ensures !PassesSendCheck(trace[j], events[j], t)
  {
    StaysOvertaken(trace, events, b, j);
  }

  lemma {:induction false} StaysCurrent(trace: seq<State>, events: seq<Event>, i: nat, j: nat)
    requires IsTrace(trace, events) && i < j <= |events| && events[i] == BeginSubmit && trace[i].inProgress == 0
    requires forall b | i < b < j :: events[b] != BeginDisable
    ensures Current(trace[j], trace[i].next) && trace[i].next < trace[j].next
    decreases j
  {
    assert StepsTo(trace[j - 1], events[j - 1], trace[j]);
    if j == i + 1 {
      SubmitIsCurrent(trace[i]);
    } else {
      StaysCurrent(trace, events, i, j - 1);
      TraceIsAccounted(trace, events, j - 1);
      CurrentKept(trace[j - 1], events[j - 1], trace[i].next);
      NumberStays(trace[j - 1], events[j - 1], trace[i].next, true);
    }
  }

  lemma SubmitWhileDisabling(s: State)
    requires Accounted(s) && s.inProgress != 0
    ensures s.next < Next(s, BeginSubmit).next && s.next !in Next(s, BeginSubmit).tasks
  {
  }

  /** A submission that has come to its send check passes exactly when no disable has begun since the submission did. */
  lemma PassesIffNotOvertaken(trace: seq<State>, events: seq<Event>, i: nat, j: nat)
    requires IsTrace(trace, events) && i < j < |events| && events[i] == BeginSubmit
    requires AtSendCheck(trace[j], events[j], trace[i].next)
    ensures PassesSendCheck(trace[j], events[j], trace[i].next) <==> forall b | i < b < j :: events[b] != BeginDisable
  {
    var t := trace[i].next;
    TraceIsAccounted(trace, events, i);
    assert StepsTo(trace[i], events[i], trace[i + 1]);
    if trace[i].inProgress != 0 {
      SubmitWhileDisabling(trace[i]);
      NumbersStay(trace, events, i + 1, j, t);
      assert false;
    }
    SubmitIsCurrent(trace[i]);
    if b: nat :| i < b < j && events[b] == BeginDisable {
      NumbersStay(trace, events, i + 1, b, t);
      OvertakenNeverPasses(trace, events, b, j, t);
    } else {
      StaysCurrent(trace, events, i, j);
    }
  }

  // ----- how submissions go on -----

  /** The call waits for an operation that may fail: a read, a lookup, a request or a write. */
  predicate Awaits(stage: SubmitStage) {
    stage != RenewQueued && stage != SubmitChecking
  }

  /** The settings name no connection to report to, or for a renewal not the one that the submission is about. */
  predicate SettingsAgainst(s: State, stage: SubmitStage, target: string) {
    || (stage == SubmitReading && (!s.settings.enabled || s.settings.connection == ""))
    || (stage == RenewReading && (!s.settings.enabled || s.settings.connection != target))
  }

  /** A disable is in progress, or one has begun since the submission did. */
  predicate DisableAgainst(s: State, stage: SubmitStage, generation: nat) {
    || (stage == RenewReading && s.inProgress != 0)
    || (stage == SubmitChecking && (s.inProgress != 0 || generation != s.generation))
  }

  /** The report was posted, and answered by something else than a first rejection of the token. */
  predicate Posted(stage: SubmitStage, retried: bool, found: bool) {
    stage == SubmitPosting && (!found || retried)
  }

  predicate IsSubmission(s: State, t: nat) {
    t in s.tasks && s.tasks[t].Submitting?
  }

  predicate EndsFor(s: State, t: nat, ok: bool, found: bool)
    requires IsSubmission(s, t)
  {
    var task := s.tasks[t];
    || (Awaits(task.submit) && !ok) || SettingsAgainst(s, task.submit, task.target)
    || DisableAgainst(s, task.submit, task.generation) || Posted(task.submit, task.retried, found)
  }

  /** A submission ends exactly for one of these reasons, and only when it is resumed itself. */
  lemma SubmissionEndsIff(s: State, event: Event, t: nat)
    requires IsSubmission(s, t) && t < s.next
    ensures t !in Next(s, event).tasks
      <==> event.Resume? && event.task == t && EndsFor(s, t, event.ok, event.found)
  {
    if event.Resume? && event.task == t {
      var Submitting(stage, target, generation, retried) := s.tasks[t];
      if IsRenewal(stage) {
        RenewEndsIff(s, t, stage, target, generation, retried, event.ok, event.found);
      } else {
        SubmitEndsIff(s, t, stage, target, generation, retried, event.ok, event.found);
      }
    } else if event.Resume? {
      ResumeGeneration(s, event);
      assert t in Next(s, event).tasks - {event.task};
    }
  }

  lemma RenewEndsIff(
    s: State, t: nat, stage: SubmitStage, target: string, generation: nat, retried: bool, ok: bool, found: bool)
    requires t in s.tasks && s.tasks[t] == Submitting(stage, target, generation, retried) && IsRenewal(stage)
    ensures t !in OnRenew(s, t, stage, target, generation, retried, ok, found).tasks <==> EndsFor(s, t, ok, found)
  {
  }

  lemma SubmitEndsIff(
    s: State, t: nat, stage: SubmitStage, target: string, generation: nat, retried: bool, ok: bool, found: bool)
    requires t in s.tasks && s.tasks[t] == Submitting(stage, target, generation, retried) && !IsRenewal(stage)
    ensures t !in OnSubmit(s, t, stage, target, generation, retried, ok, found).tasks <==> EndsFor(s, t, ok, found)
  {
  }

  /** How far a submission is from having posted. */
  function Remaining(stage: SubmitStage): nat {
    match stage
    case SubmitReading => 9
    case SubmitLooking => 8
    case RenewQueued => 7
    case RenewReading => 6
    case RenewLooking => 5
    case RenewMinting => 4
    case RenewStoring => 3
    case RenewPatching => 2
    case SubmitChecking => 1
    case SubmitPosting => 0
  }

  /** It looks for a stored token. */
  predicate Looks(stage: SubmitStage) {
    stage == SubmitLooking || stage == RenewLooking
  }

  /** Its first token was rejected. */
  predicate Rejected(s: State, event: Event, t: nat) {
    && IsSubmission(s, t) && s.tasks[t].submit == SubmitPosting && !s.tasks[t].retried
    && event == Resume(t, true, true)
  }

  /** What a submission that does not end remembers, and that it comes nearer to posting. */
  predicate GoesOn(before: Task, after: Task, settings: Settings, found: bool, waits: bool) {
    && before.Submitting? && after.Submitting? && after.generation == before.generation
    && after.target == (if before.submit == SubmitReading then settings.connection else before.target)
    && (Looks(before.submit) && found ==> after.submit == SubmitChecking)
    && (after.submit == RenewMinting ==> before.submit == RenewLooking && !found)
    && (after.submit == RenewStoring <==> before.submit == RenewMinting)
    && (before.submit == SubmitChecking ==> after.submit == SubmitPosting)
    && (before.submit == SubmitPosting ==> after.submit == RenewQueued && after.retried)
    && (before.submit != SubmitPosting ==> after.retried == before.retried)
    && (before.submit != SubmitPosting && !waits ==> Remaining(after.submit) < Remaining(before.submit))
    && (waits ==> after == before)
  }

  /**
   A submission that is resumed and does not end keeps its generation and its target, comes to its send check when it
   finds a token, and otherwise comes nearer to it; a new token is minted only when none is found, and is then stored. It
   waits only for the renewal lock, and goes back only once, when its token is rejected.
   */
  lemma SubmissionGoesOn(s: State, t: nat, ok: bool, found: bool)
    requires IsSubmission(s, t) && !EndsFor(s, t, ok, found)
    ensures var n, waits := Next(s, Resume(t, ok, found)), s.tasks[t].submit == RenewQueued && s.renewHeld.Some?;
      t in n.tasks && GoesOn(s.tasks[t], n.tasks[t], s.settings, found, waits)
  {
    var Submitting(stage, target, generation, retried) := s.tasks[t];
    if IsRenewal(stage) {
      RenewGoesOn(s, t, stage, target, generation, retried, ok, found);
    } else {
      SubmitGoesOn(s, t, stage, target, generation, retried, ok, found);
    }
  }

  lemma RenewGoesOn(
    s: State, t: nat, stage: SubmitStage, target: string, generation: nat, retried: bool, ok: bool, found: bool)
    requires t in s.tasks && s.tasks[t] == Submitting(stage, target, generation, retried) && IsRenewal(stage)
    requires !EndsFor(s, t, ok, found)
    ensures var n := OnRenew(s, t, stage, target, generation, retried, ok, found);
      t in n.tasks && GoesOn(s.tasks[t], n.tasks[t], s.settings, found, stage == RenewQueued && s.renewHeld.Some?)
  {
  }

  lemma SubmitGoesOn(
    s: State, t: nat, stage: SubmitStage, target: string, generation: nat, retried: bool, ok: bool, found: bool)
    requires t in s.tasks && s.tasks[t] == Submitting(stage, target, generation, retried) && !IsRenewal(stage)
    requires !EndsFor(s, t, ok, found)
    ensures var n := OnSubmit(s, t, stage, target, generation, retried, ok, found);
      t in n.tasks && GoesOn(s.tasks[t], n.tasks[t], s.settings, found, false)
  {
  }

  /** Passing the send check is going on to post. */
  lemma PassingIsPosting(s: State, event: Event, t: nat)
    requires AtSendCheck(s, event, t) && t < s.next
    ensures var n := Next(s, event);
      PassesSendCheck(s, event, t) <==> t in n.tasks && n.tasks[t] == s.tasks[t].(submit := SubmitPosting)
  {
    SubmissionEndsIff(s, event, t);
    if !EndsFor(s, t, event.ok, event.found) {
      SubmissionGoesOn(s, t, event.ok, event.found);
    }
  }

  /** A submission that comes to its send check goes on to post exactly when no disable has begun since it did. */
  lemma PostsIffNotOvertaken(trace: seq<State>, events: seq<Event>, i: nat, j: nat)
    requires IsTrace(trace, events) && i < j < |events| && events[i] == BeginSubmit
    requires AtSendCheck(trace[j], events[j], trace[i].next)
    ensures var t := trace[i].next;
      (t in trace[j + 1].tasks && trace[j + 1].tasks[t] == trace[j].tasks[t].(submit := SubmitPosting))
      <==> forall b | i < b < j :: events[b] != BeginDisable
  {
    PassesIffNotOvertaken(trace, events, i, j);
    TraceIsAccounted(trace, events, j);
    assert StepsTo(trace[j], events[j], trace[j + 1]);
    PassingIsPosting(trace[j], events[j], trace[i].next);
  }

  /**
   In every run, a submission that ends has failed in an operation it awaited, found the settings off or naming another
   connection, been overtaken by a disable, or posted its report.
   */
  lemma SubmissionEndsForAReason(trace: seq<State>, events: seq<Event>, i: nat, j: nat)
    requires IsTrace(trace, events) && i < j < |events| && events[i] == BeginSubmit
    requires IsSubmission(trace[j], trace[i].next) && trace[i].next !in trace[j + 1].tasks
    ensures var t := trace[i].next;
      var task := trace[j].tasks[t];
      && events[j].Resume? && events[j].task == t
      && ((Awaits(task.submit) && !events[j].ok) || SettingsAgainst(trace[j], task.submit, task.target)
          || (exists b :: i < b < j && events[b] == BeginDisable) || Posted(task.submit, task.retried, events[j].found))
  {
    var t := trace[i].next;
    TraceIsAccounted(trace, events, j);
    assert StepsTo(trace[j], events[j], trace[j + 1]);
    SubmissionEndsIff(trace[j], events[j], t);
    if !exists b :: i < b < j && events[b] == BeginDisable {
      BegunWhileQuiet(trace, events, i, j);
      StaysCurrent(trace, events, i, j);
    }
  }

  /** A submission is under way only if no disable was in progress when it began. */
  lemma BegunWhileQuiet(trace: seq<State>, events: seq<Event>, i: nat, j: nat)
    requires IsTrace(trace, events) && i < j <= |events| && events[i] == BeginSubmit && trace[i].next in trace[j].tasks
    ensures trace[i].inProgress == 0
  {
    var t := trace[i].next;
    TraceIsAccounted(trace, events, i);
    assert StepsTo(trace[i], events[i], trace[i + 1]);
    if trace[i].inProgress != 0 {
      SubmitWhileDisabling(trace[i]);
      NumbersStay(trace, events, i + 1, j, t);
      assert false;
    }
  }

  // ----- the token that is posted -----

  /** It has a token in hand. */
  predicate HasToken(stage: SubmitStage) {
    stage == RenewPatching || stage == SubmitChecking || stage == SubmitPosting
  }

  /** It finds a usable token, or stores a new one. */
  predicate Obtains(s: State, event: Event, t: nat) {
    && IsSubmission(s, t) && event.Resume? && event.task == t && event.ok
    && ((Looks(s.tasks[t].submit) && event.found) || s.tasks[t].submit == RenewStoring)
  }

  lemma RenewToken(
    s: State, t: nat, stage: SubmitStage, target: string, generation: nat, retried: bool, ok: bool, found: bool)
    requires t in s.tasks && s.tasks[t] == Submitting(stage, target, generation, retried) && IsRenewal(stage)
    ensures var n := OnRenew(s, t, stage, target, generation, retried, ok, found);
      && (t in n.tasks && HasToken(n.tasks[t].submit) ==> HasToken(stage) || Obtains(s, Resume(t, ok, found), t))
      && (t in n.tasks ==> n.tasks[t].target == target)
      && (stage == RenewStoring && ok ==> target in n.stored)
  {
  }

  lemma SubmitToken(
    s: State, t: nat, stage: SubmitStage, target: string, generation: nat, retried: bool, ok: bool, found: bool)
    requires t in s.tasks && s.tasks[t] == Submitting(stage, target, generation, retried) && !IsRenewal(stage)
    ensures var n := OnSubmit(s, t, stage, target, generation, retried, ok, found);
      t in n.tasks && HasToken(n.tasks[t].submit) ==>
        n.tasks[t].target == target
        && ((HasToken(stage) && !Rejected(s, Resume(t, ok, found), t)) || Obtains(s, Resume(t, ok, found), t))
  {
  }

  /** A submission has a token in hand after a step only if it had it before, or obtains it in that step. */
  lemma TokenStep(s: State, event: Event, t: nat)
    requires GenerationsKnown(s) && IsSubmission(Next(s, event), t) && HasToken(Next(s, event).tasks[t].submit)
    ensures IsSubmission(s, t) && s.tasks[t].target == Next(s, event).tasks[t].target
    ensures (HasToken(s.tasks[t].submit) && !Rejected(s, event, t)) || Obtains(s, event, t)
    ensures Obtains(s, event, t) && s.tasks[t].submit == RenewStoring ==> s.tasks[t].target in Next(s, event).stored
  {
    if event.Resume? {
      ResumeGeneration(s, event);
      if event.task != t {
        assert t in Next(s, event).tasks - {event.task} && t in s.tasks - {event.task};
      } else {
        var Submitting(stage, target, generation, retried) := s.tasks[t];
        if IsRenewal(stage) {
          RenewToken(s, t, stage, target, generation, retried, event.ok, event.found);
        } else {
          SubmitToken(s, t, stage, target, generation, retried, event.ok, event.found);
        }
      }
    }
  }

  ghost predicate GenerationsKnown(s: State) {
    forall t | t in s.tasks :: t < s.next
  }

  /**
   In every run, what a submission posts was found stored for its connection, or was stored for it by the submission
   itself, and has not been rejected since.
   */
  lemma {:induction false} TokenIsObtained(trace: seq<State>, events: seq<Event>, t: nat, j: nat) returns (i: nat)
    requires IsTrace(trace, events) && j <= |events| && IsSubmission(trace[j], t) && HasToken(trace[j].tasks[t].submit)
    ensures i < j && Obtains(trace[i], events[i], t) && trace[i].tasks[t].target == trace[j].tasks[t].target
    ensures trace[i].tasks[t].submit == RenewStoring ==> trace[i].tasks[t].target in trace[i + 1].stored
    ensures forall k | i < k < j :: !Rejected(trace[k], events[k], t)
    decreases j
  {
    i := 0;
    if j > 0 {
      TraceIsAccounted(trace, events, j - 1);
      assert StepsTo(trace[j - 1], events[j - 1], trace[j]);
      TokenStep(trace[j - 1], events[j - 1], t);
      if Obtains(trace[j - 1], events[j - 1], t) {
        i := j - 1;
      } else {
        i := TokenIsObtained(trace, events, t, j - 1);
      }
    }
  }

  // ----- what enabling and disabling change -----

  /** The settings change exactly when an enable or a disable patches them, and to what it was called for. */
  lemma SettingsChange(s: State, event: Event)
    ensures var call := Resumed(s, event);
      Next(s, event).settings ==
        if call.Some? && event.ok && call.value.Enabling? && call.value.enable == EnablePatching
        then Settings(true, call.value.connection)
        else if call.Some? && event.ok && call.value.Disabling? && call.value.disable == DisablePatching
        then Settings(false, "")
        else s.settings
  {
  }

  /** In every run, an enable that comes to its report has the settings name its connection, and its token stored. */
  lemma EnableIsInForce(events: seq<Event>, t: nat)
    requires var s := Run(START, events); t in s.tasks && s.tasks[t].Enabling? && s.tasks[t].enable == EnableReporting
    ensures var s := Run(START, events);
      s.settings == Settings(true, s.tasks[t].connection) && s.tasks[t].connection in s.stored
  {
    var connection := Run(START, events).tasks[t].connection;
    var c := if connection == "" then "any" else connection;
    RunKeeps(events, c);
    assert TaskKept(Run(START, events), c, t);
  }

  // ----- the manager -----

  /**
   The manager with the two stores it writes. A method runs one call from one suspension point to the next: `ok` tells
   how the awaited operation ended. `calm` and `stranded` are history that no branch looks at.
   */
  class CentralDiagnosticsManager {
    var disableGeneration: nat
    var disableInProgress: int
    var configureLock: Option<nat>
    var renewLock: Option<nat>
    var settings: Settings
    var tokens: set<string>
    var calls: map<nat, Task>
    var nextCall: nat
    ghost var calm: bool
    ghost var stranded: set<string>

    ghost function Value(): State
      reads this
    {
      State(settings, tokens, configureLock, renewLock, disableGeneration, disableInProgress, calls, nextCall, calm,
        stranded)
    }

    constructor ()
      ensures Value() == START
    {
      disableGeneration, disableInProgress := 0, 0;
      configureLock, renewLock := None, None;
      settings, tokens := Settings(false, ""), {};
      calls, nextCall := map[], 0;
      calm, stranded := false, {};
    }

    method Configure(enabled: bool, connection: string)
      modifies this
      ensures Value() == Next(old(Value()), if enabled then BeginEnable(connection) else BeginDisable)
    {
      if !enabled {
        disableGeneration := disableGeneration + 1;
        disableInProgress := disableInProgress + 1;
      }
      calls := calls[nextCall := if enabled then Enabling(connection, EnableQueued, "") else Disabling(DisableQueued, "")];
      nextCall := nextCall + 1;
    }

    method SubmitTerminal()
      modifies this
      ensures Value() == Next(old(Value()), BeginSubmit)
    {
      if disableInProgress == 0 {
        calls := calls[nextCall := Submitting(SubmitReading, "", disableGeneration, false)];
      }
      nextCall := nextCall + 1;
    }

    /** The call returns or raises. */
    method Finish(t: nat)
      modifies this
      ensures Value() == End(old(Value()), t)
    {
      calls := calls - {t};
      if configureLock == Some(t) {
        configureLock := None;
      }
      if renewLock == Some(t) {
        renewLock := None;
      }
    }

    method FinishDisable(t: nat)
      modifies this
      ensures Value() == EndDisable(old(Value()), t)
    {
      Finish(t);
      disableInProgress := disableInProgress - 1;
    }

    method ResumeDisable(t: nat, ok: bool, found: bool)
      requires t in calls && calls[t].Disabling?
      modifies this
      ensures Value() == Next(old(Value()), Resume(t, ok, found))
    {
      var Disabling(stage, previous) := calls[t];
      match stage {
        case DisableQueued =>
          if configureLock.None? {
            configureLock := Some(t);
            if ok {
              calls := calls[t := Disabling(DisableLocking, "")];
            } else {
              FinishDisable(t);
            }
          }
        case DisableLocking =>
          if renewLock.None? {
            renewLock := Some(t);
            calls := calls[t := Disabling(DisableReading, "")];
          }
        case DisableReading =>
          if !ok {
            FinishDisable(t);
          } else if settings.connection != "" {
            calls := calls[t := Disabling(DisableDeleting, settings.connection)];
          } else {
            calls := calls[t := Disabling(DisablePatching, "")];
          }
        case DisableDeleting =>
          if !ok {
            FinishDisable(t);
          } else {
            tokens := tokens - {previous};
            calls := calls[t := Disabling(DisablePatching, previous)];
          }
        case DisablePatching =>
          if !ok {
            FinishDisable(t);
          } else {
            settings := Settings(false, "");
            renewLock := None;
            calls := calls[t := Disabling(DisableReporting, previous)];
          }
        case DisableReporting =>
          FinishDisable(t);
          calm := calm || ok;
      }
    }

    method ResumeEnable(t: nat, ok: bool, found: bool)
      requires t in calls && calls[t].Enabling?
      modifies this
      ensures Value() == Next(old(Value()), Resume(t, ok, found))
    {
      var Enabling(connection, stage, previous) := calls[t];
      match stage {
        case EnableQueued =>
          if configureLock.None? {
            configureLock := Some(t);
            if ok {
              calls := calls[t := Enabling(connection, EnableReading, "")];
            } else {
              Finish(t);
            }
          }
        case EnableReading =>
          if !ok || connection == "" {
            Finish(t);
          } else {
            calls := calls[t := Enabling(connection, EnableMinting, settings.connection)];
          }
        case EnableMinting =>
          if !ok {
            Finish(t);
          } else {
            calls := calls[t := Enabling(connection, EnableStoring, previous)];
          }
        case EnableStoring =>
          if !ok {
            Finish(t);
          } else {
            tokens := tokens + {connection};
            calm := false;
            calls := calls[t := Enabling(connection, EnablePatching, previous)];
          }
        case EnablePatching =>
          if !ok {
            calls := calls[t := Enabling(connection, EnableRollingBack, previous)];
          } else {
            settings := Settings(true, connection);
            stranded := stranded - {connection};
            var next := if previous != "" && previous != connection then EnableDeletingPrevious else EnableReporting;
            calls := calls[t := Enabling(connection, next, previous)];
          }
        case EnableRollingBack =>
          if ok {
            tokens := tokens - {connection};
            stranded := stranded - {connection};
          } else if settings.connection != connection {
            stranded := stranded + {connection};
          }
          Finish(t);
        case EnableDeletingPrevious =>
          if !ok {
            if previous in tokens {
              stranded := stranded + {previous};
            }
            Finish(t);
          } else {
            tokens := tokens - {previous};
            stranded := stranded - {previous};
            calls := calls[t := Enabling(connection, EnableReporting, previous)];
          }
        case EnableReporting =>
          Finish(t);
      }
    }

    /** Moves the submission on, with what it remembers. */
    method MoveOn(t: nat, stage: SubmitStage, target: string, generation: nat, retried: bool)
      modifies this`calls
      ensures calls == old(calls)[t := Submitting(stage, target, generation, retried)]
    {
      calls := calls[t := Submitting(stage, target, generation, retried)];
    }

    method ResumeRenewal(t: nat, ok: bool, found: bool)
      requires t in calls && calls[t].Submitting? && IsRenewal(calls[t].submit)
      modifies this
      ensures Value() == Next(old(Value()), Resume(t, ok, found))
    {
      var Submitting(stage, target, generation, retried) := calls[t];
      if stage == RenewQueued {
        if renewLock.None? {
          renewLock := Some(t);
          MoveOn(t, RenewReading, target, generation, retried);
        }
      } else if !ok {
        Finish(t);
      } else {
        match stage {
          case RenewReading =>
            if settings.enabled && settings.connection == target && disableInProgress == 0 {
              MoveOn(t, RenewLooking, target, generation, retried);
            } else {
              Finish(t);
            }
          case RenewLooking =>
            if found {
              renewLock := None;
              MoveOn(t, SubmitChecking, target, generation, retried);
            } else {
              MoveOn(t, RenewMinting, target, generation, retried);
            }
          case RenewMinting =>
            MoveOn(t, RenewStoring, target, generation, retried);
          case RenewStoring =>
            tokens := tokens + {target};
            if settings.connection != target {
              stranded := stranded + {target};
            }
            MoveOn(t, RenewPatching, target, generation, retried);
          case RenewPatching =>
            renewLock := None;
            MoveOn(t, SubmitChecking, target, generation, retried);
        }
      }
    }

    method ResumeSubmission(t: nat, ok: bool, found: bool)
      requires t in calls && calls[t].Submitting? && !IsRenewal(calls[t].submit)
      modifies this
      ensures Value() == Next(old(Value()), Resume(t, ok, found))
    {
      var Submitting(stage, target, generation, retried) := calls[t];
      match stage {
        case SubmitReading =>
          if !ok || !settings.enabled || settings.connection == "" {
            Finish(t);
          } else {
            MoveOn(t, SubmitLooking, settings.connection, generation, retried);
          }
        case SubmitLooking =>
          if !ok {
            Finish(t);
          } else if found {
            MoveOn(t, SubmitChecking, target, generation, retried);
          } else {
            MoveOn(t, RenewQueued, target, generation, retried);
          }
        case SubmitChecking =>
          if disableInProgress != 0 || generation != disableGeneration {
            Finish(t);
          } else {
            MoveOn(t, SubmitPosting, target, generation, retried);
          }
        case SubmitPosting =>
          if ok && found && !retried {
            MoveOn(t, RenewQueued, target, generation, true);
          } else {
            Finish(t);
          }
      }
    }
  }
}
