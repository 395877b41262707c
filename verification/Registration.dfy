/**
 * tools/pkg/fccutils/registration.go: the resumable registration protocol. `r` pre-registers (or, on a
 * registered machine, requests a fresh attestation), `R` requests an attestation, `a` an availability
 * check of the attested machine, `p` promotes the check's result.
 */
module Registration {
  import opened Base

  datatype State = State(completed: string, attestation: Hash, instruction: Hash)

  /** The state file; a torn write leaves bytes that do not parse. */
  datatype File = Absent | Saved(state: State) | Torn

  /** What happened on chain, in order; `step` is the letter, `registering` a pre-registration of the machine. */
  datatype Event =
    | Attested(step: char, registering: bool, id: Hash)
    | Checked(id: Hash, attestation: Hash)
    | Promoted(check: Hash)

  datatype WriteOutcome = Written | Unwritten | TornWrite

  /** How an on-chain call ends; a lost one takes effect, but the program sees an error. */
  datatype Call = Failed | Lost(id: Hash) | Returned(id: Hash)

  /** One step's environment: its call, its save, and a crash right after. */
  datatype StepIo = StepIo(call: Call, write: WriteOutcome, crash: bool)

  datatype Promotion = NotSent | SentThenFailed | Confirmed

  /** `registered` is what the registry answers about the machine; false also when it cannot be asked. */
  datatype RunIo = RunIo(readable: bool, registered: bool, r: StepIo, R: StepIo, policyInSync: bool, a: StepIo,
                         proof: bool, promotion: Promotion, removed: bool)

  /** A run in progress. */
  datatype Progress = Progress(state: State, attestation: Hash, instruction: Hash, file: File, log: seq<Event>,
                               halted: bool)

  function Write(file: File, s: State, outcome: WriteOutcome): File {
    match outcome
    case Written => Saved(s)
    case Unwritten => file
    case TornWrite => Torn
  }

  function AttestStep(letter: char, registering: bool, command: string, p: Progress, io: StepIo): Progress {
    if p.halted || letter !in command then p
    else if letter in p.state.completed then p.(attestation := p.state.attestation)
    else
      match io.call
      case Failed => p.(halted := true)
      case Lost(id) => p.(log := p.log + [Attested(letter, registering, id)], halted := true)
      case Returned(id) =>
        var s := p.state.(completed := p.state.completed + [letter], attestation := id);
        p.(state := s, attestation := id, file := Write(p.file, s, io.write),
           log := p.log + [Attested(letter, registering, id)], halted := io.crash)
  }

  function CheckStep(command: string, given: Hash, p: Progress, inSync: bool, io: StepIo): Progress {
    if p.halted then p
    else if 'a' !in command then p.(instruction := given)
    else if 'a' in p.state.completed then p.(instruction := p.state.instruction)
    else if !inSync then p.(halted := true)
    else
      match io.call
      case Failed => p.(halted := true)
      case Lost(id) => p.(log := p.log + [Checked(id, p.attestation)], halted := true)
      case Returned(id) =>
        var s := p.state.(completed := p.state.completed + "a", instruction := id);
        p.(state := s, instruction := id, file := Write(p.file, s, io.write),
           log := p.log + [Checked(id, p.attestation)], halted := io.crash)
  }

  function PromoteStep(command: string, p: Progress, proof: bool, promotion: Promotion): Progress {
    if p.halted || 'p' !in command then p
    else if !proof || promotion.NotSent? then p.(halted := true)
    else p.(log := p.log + [Promoted(p.instruction)], halted := promotion.SentThenFailed?)
  }

  function Start(file: File, log: seq<Event>): Progress {
    Progress(if file.Saved? then file.state else State("", 0, 0), 0, 0, file, log, file.Torn?)
  }

  function UpToCheck(command: string, given: Hash, file: File, log: seq<Event>, io: RunIo): Progress {
    var registered := AttestStep('r', !io.registered, command, Start(file, log), io.r);
    var attested := AttestStep('R', false, command, registered, io.R);
    CheckStep(command, given, attested, io.policyInSync, io.a)
  }

  /** One invocation of RegisterNode: the file and the outside world after it. */
  function RunOnce(command: string, given: Hash, file: File, log: seq<Event>, io: RunIo): (File, seq<Event>) {
    if !io.readable then (file, log)
    else
      var end := PromoteStep(command, UpToCheck(command, given, file, log, io), io.proof, io.promotion);
      (if end.halted || !io.removed then end.file else Absent, end.log)
  }

  /** Any number of invocations with the same command, from no state file. */
  function Runs(command: string, given: Hash, ios: seq<RunIo>): (File, seq<Event>) {
    if ios == [] then (Absent, [])
    else
      var (file, log) := Runs(command, given, ios[..|ios| - 1]);
      RunOnce(command, given, file, log, ios[|ios| - 1])
  }

  // ---- the program, step by step ----

  class Registrar {
    var file: File
    var log: seq<Event>

    method SaveState(s: State, outcome: WriteOutcome)
      modifies `file
      ensures file == Write(old(file), s, outcome)
    {
      match outcome
      case Written => file := Saved(s);
      case Unwritten =>
      case TornWrite => file := Torn;
    }

    /**
     * The blocks for `r` and `R`: a registered machine, and step `R`, get a fresh attestation instead of a
     * registration.
     */
    method Attest(letter: char, registering: bool, command: string, before: State, attested: Hash, io: StepIo)
      returns (state: State, attestation: Hash, failed: bool)
      modifies this
      ensures Progress(state, attestation, 0, file, log, failed)
           == AttestStep(letter, registering, command, Progress(before, attested, 0, old(file), old(log), false), io)
    {
      state, attestation, failed := before, attested, false;
      if letter in command {
        if letter in state.completed {
          attestation := state.attestation;
        } else {
          if io.call.Failed? { failed := true; return; }
          log := log + [Attested(letter, registering, io.call.id)];
          if io.call.Lost? { failed := true; return; }
          attestation := io.call.id;
          state := state.(completed := state.completed + [letter], attestation := attestation);
          SaveState(state, io.write);
          failed := io.crash;
        }
      }
    }

    method Check(command: string, given: Hash, before: State, attestation: Hash, inSync: bool, io: StepIo)
      returns (state: State, instruction: Hash, failed: bool)
      modifies this
      ensures Progress(state, attestation, instruction, file, log, failed)
           == CheckStep(command, given, Progress(before, attestation, 0, old(file), old(log), false), inSync, io)
    {
      state, instruction, failed := before, 0, false;
      if 'a' in command {
        if 'a' in state.completed {
          instruction := state.instruction;
        } else {
          if !inSync || io.call.Failed? { failed := true; return; }
          log := log + [Checked(io.call.id, attestation)];
          if io.call.Lost? { failed := true; return; }
          instruction := io.call.id;
          state := state.(completed := state.completed + "a", instruction := instruction);
          SaveState(state, io.write);
          failed := io.crash;
        }
      } else {
        instruction := given;
      }
    }

    method RegisterNode(command: string, given: Hash, io: RunIo)
      modifies this
      ensures (file, log) == RunOnce(command, given, old(file), old(log), io)
    {
      if !io.readable || file.Torn? { return; }
      var failed: bool;
      var state := if file.Saved? then file.state else State("", 0, 0);
      var attestation: Hash, instruction: Hash := 0, 0;
      state, attestation, failed := Attest('r', !io.registered, command, state, attestation, io.r);
      if failed { return; }
      state, attestation, failed := Attest('R', false, command, state, attestation, io.R);
      if failed { return; }
      state, instruction, failed := Check(command, given, state, attestation, io.policyInSync, io.a);
      if failed { return; }
      if 'p' in command {
        if !io.proof || io.promotion.NotSent? { return; }
        log := log + [Promoted(instruction)];
        if io.promotion.SentThenFailed? { return; }
      }
      if io.removed { file := Absent; }
    }
  }

  // ---- what every prefix of every sequence of runs keeps ----

  /** The command attests and checks: `rap`, `rRap` and their like. */
  predicate Full(command: string) {
    'a' in command && ('r' in command || 'R' in command)
  }

  function LastAttestation(log: seq<Event>): Option<Hash> {
    if log == [] then None
    else if log[|log| - 1].Attested? then Some(log[|log| - 1].id)
    else LastAttestation(log[..|log| - 1])
  }

  function LastCheck(log: seq<Event>): Option<Event> {
    if log == [] then None
    else if log[|log| - 1].Checked? then Some(log[|log| - 1])
    else LastCheck(log[..|log| - 1])
  }

  predicate AllAttested(command: string, completed: string) {
    ('r' in command ==> 'r' in completed) && ('R' in command ==> 'R' in completed)
  }

  predicate NoRepeats(s: string) {
    forall i, j :: 0 <= i < j < |s| ==> s[i] != s[j]
  }

  /**
   * A state that records all attestations names the latest one; one that records the check names the latest
   * check of it.
   */
  predicate Faithful(command: string, s: State, log: seq<Event>) {
    && NoRepeats(s.completed)
    && (AllAttested(command, s.completed) && s.completed != "" ==> LastAttestation(log) == Some(s.attestation))
    && ('a' in s.completed ==>
          AllAttested(command, s.completed) && LastCheck(log) == Some(Checked(s.instruction, s.attestation)))
  }

  /** A promotion promotes the latest check, and that check used the latest attestation. */
  predicate PromotesLatest(log: seq<Event>, k: nat)
    requires k < |log|
  {
    log[k].Promoted? ==>
      && LastAttestation(log[..k]).Some?
      && LastCheck(log[..k]) == Some(Checked(log[k].check, LastAttestation(log[..k]).value))
  }

  predicate Orderly(command: string, file: File, log: seq<Event>) {
    && (file.Saved? ==> Faithful(command, file.state, log))
    && forall k :: 0 <= k < |log| ==> PromotesLatest(log, k)
  }

  /** The letters the file records are recorded by the run too, and the run has done nothing they cover again. */
  predicate OnTrack(command: string, p: Progress) {
    && Faithful(command, p.state, p.log)
    && Orderly(command, p.file, p.log)
    && (p.file.Saved? ==> forall c :: c in p.file.state.completed ==> c in p.state.completed)
  }

  lemma {:induction false} AppendEvent(log: seq<Event>, e: Event)
    ensures (log + [e])[..|log|] == log
    ensures LastAttestation(log + [e]) == if e.Attested? then Some(e.id) else LastAttestation(log)
    ensures LastCheck(log + [e]) == if e.Checked? then Some(e) else LastCheck(log)
  {
    assert (log + [e])[..|log|] == log;
  }

  lemma {:induction false} OrderlyAppend(log: seq<Event>, e: Event)
    requires forall k :: 0 <= k < |log| ==> PromotesLatest(log, k)
    requires e.Promoted? ==>
               && LastAttestation(log).Some?
               && LastCheck(log) == Some(Checked(e.check, LastAttestation(log).value))
    ensures forall k :: 0 <= k < |log + [e]| ==> PromotesLatest(log + [e], k)
  {
    forall k | 0 <= k < |log + [e]| ensures PromotesLatest(log + [e], k) {
      if k < |log| {
        assert (log + [e])[..k] == log[..k] && PromotesLatest(log, k);
      } else {
        AppendEvent(log, e);
      }
    }
  }

  /** A new attestation: whatever the file said before stays faithful, and so does the state that records it. */
  lemma FaithfulAttested(e: Event, command: string, s: State, saved: State, log: seq<Event>)
    requires e.Attested? && e.step in command && (e.step == 'r' || e.step == 'R')
    requires Faithful(command, s, log) && e.step !in s.completed
    requires Faithful(command, saved, log) && e.step !in saved.completed
    ensures Faithful(command, s.(completed := s.completed + [e.step], attestation := e.id), log + [e])
    ensures Faithful(command, s, log + [e]) && Faithful(command, saved, log + [e])
  {
    AppendEvent(log, e);
  }

  lemma AttestKeeps(letter: char, registering: bool, command: string, p: Progress, io: StepIo)
    requires letter == 'r' || letter == 'R'
    requires OnTrack(command, p)
    ensures var p' := AttestStep(letter, registering, command, p, io);
            && OnTrack(command, p')
            && (!p'.halted && letter in command ==>
                  letter in p'.state.completed && p'.attestation == p'.state.attestation)
  {
    if !p.halted && letter in command && letter !in p.state.completed && !io.call.Failed? {
      var e := Attested(letter, registering, io.call.id);
      FaithfulAttested(e, command, p.state, if p.file.Saved? then p.file.state else p.state, p.log);
      OrderlyAppend(p.log, e);
    }
  }

  lemma CheckKeeps(command: string, given: Hash, p: Progress, inSync: bool, io: StepIo)
    requires OnTrack(command, p) && 'a' in command
    requires !p.halted ==>
               && AllAttested(command, p.state.completed) && p.state.completed != ""
               && p.attestation == p.state.attestation
    ensures var p' := CheckStep(command, given, p, inSync, io);
            && OnTrack(command, p')
            && (!p'.halted ==> 'a' in p'.state.completed && p'.instruction == p'.state.instruction)
  {
    if !p.halted && 'a' !in p.state.completed && inSync && !io.call.Failed? {
      AppendEvent(p.log, Checked(io.call.id, p.attestation));
      OrderlyAppend(p.log, Checked(io.call.id, p.attestation));
    }
  }

  lemma PromoteKeeps(command: string, p: Progress, proof: bool, promotion: Promotion)
    requires OnTrack(command, p)
    requires !p.halted ==> 'a' in p.state.completed && p.instruction == p.state.instruction
    ensures OnTrack(command, PromoteStep(command, p, proof, promotion))
  {
    if !p.halted {
      AppendEvent(p.log, Promoted(p.instruction));
      OrderlyAppend(p.log, Promoted(p.instruction));
    }
  }

  lemma RunKeeps(command: string, given: Hash, file: File, log: seq<Event>, io: RunIo)
    requires Full(command) && Orderly(command, file, log)
    ensures var (file', log') := RunOnce(command, given, file, log, io); Orderly(command, file', log')
  {
    var p0 := Start(file, log);
    AttestKeeps('r', !io.registered, command, p0, io.r);
    var p1 := AttestStep('r', !io.registered, command, p0, io.r);
    AttestKeeps('R', false, command, p1, io.R);
    var p2 := AttestStep('R', false, command, p1, io.R);
    if !p2.halted && 'R' !in command { assert p2 == p1; }
    CheckKeeps(command, given, p2, io.policyInSync, io.a);
    PromoteKeeps(command, CheckStep(command, given, p2, io.policyInSync, io.a), io.proof, io.promotion);
  }

  /**
   * However often registration crashes, fails to save or is resumed, every promotion is of the latest
   * availability check, which was requested with the latest attestation obtained, and the state file
   * records no letter twice.
   */
  lemma {:induction false} PromotionsAreLatest(command: string, given: Hash, ios: seq<RunIo>)
    requires Full(command)
    ensures var (file, log) := Runs(command, given, ios);
            && (forall k :: 0 <= k < |log| ==> PromotesLatest(log, k))
            && (file.Saved? ==> NoRepeats(file.state.completed))
            && Orderly(command, file, log)
  {
    if ios == [] {
    } else {
      PromotionsAreLatest(command, given, ios[..|ios| - 1]);
      var (file, log) := Runs(command, given, ios[..|ios| - 1]);
      RunKeeps(command, given, file, log, ios[|ios| - 1]);
    }
  }

  /** The letter of the step that caused an event. */
  function StepOf(e: Event): char {
    match e
    case Attested(step, _, _) => step
    case Checked(_, _) => 'a'
    case Promoted(_) => 'p'
  }

  /** The file records the step, or is torn and stops every run. */
  predicate Records(file: File, letter: char) {
    file.Torn? || (file.Saved? && letter in file.state.completed)
  }

  /** The log has grown from `log` without the step. */
  predicate Without(letter: char, log: seq<Event>, log': seq<Event>) {
    log <= log' && forall k :: |log| <= k < |log'| ==> StepOf(log'[k]) != letter
  }

  predicate Skips(letter: char, log: seq<Event>, p: Progress) {
    Without(letter, log, p.log) && Records(p.file, letter) && (p.halted || letter in p.state.completed)
  }

  lemma AttestSkips(letter: char, log: seq<Event>, step: char, registering: bool, command: string, p: Progress,
                    io: StepIo)
    requires Skips(letter, log, p)
    ensures Skips(letter, log, AttestStep(step, registering, command, p, io))
  {}

  lemma CheckSkips(letter: char, log: seq<Event>, command: string, given: Hash, p: Progress, inSync: bool, io: StepIo)
    requires Skips(letter, log, p)
    ensures Skips(letter, log, CheckStep(command, given, p, inSync, io))
  {}

  lemma RunSkips(letter: char, command: string, given: Hash, file: File, log: seq<Event>, io: RunIo)
    requires letter != 'p' && Records(file, letter)
    ensures var (file', log') := RunOnce(command, given, file, log, io);
            Without(letter, log, log') && (file'.Absent? || Records(file', letter))
  {
    var p0 := Start(file, log);
    AttestSkips(letter, log, 'r', !io.registered, command, p0, io.r);
    var p1 := AttestStep('r', !io.registered, command, p0, io.r);
    AttestSkips(letter, log, 'R', false, command, p1, io.R);
    var p2 := AttestStep('R', false, command, p1, io.R);
    CheckSkips(letter, log, command, given, p2, io.policyInSync, io.a);
  }

  /** Once the state file records a step, no later run executes it again until a completed run removes the file. */
  lemma {:induction false} SavedStepsNotRepeated(letter: char, command: string, given: Hash, ios: seq<RunIo>, n: nat)
    requires n <= |ios| && letter != 'p' && Records(Runs(command, given, ios[..n]).0, letter)
    requires forall m :: n <= m < |ios| ==> !Runs(command, given, ios[..m]).0.Absent?
    ensures Without(letter, Runs(command, given, ios[..n]).1, Runs(command, given, ios).1)
    ensures Runs(command, given, ios).0.Absent? || Records(Runs(command, given, ios).0, letter)
  {
    if n == |ios| {
      assert ios[..n] == ios;
    } else {
      var before := ios[..|ios| - 1];
      assert before[..n] == ios[..n];
      assert forall m :: n <= m < |before| ==> before[..m] == ios[..m];
      SavedStepsNotRepeated(letter, command, given, before, n);
      var (file, log) := Runs(command, given, before);
      RunSkips(letter, command, given, file, log, ios[|ios| - 1]);
    }
  }

  // ---- pre-registration ----

  predicate Registering(e: Event) {
    e.Attested? && e.registering
  }

  predicate RegisteredIn(log: seq<Event>) {
    exists k :: 0 <= k < |log| && Registering(log[k])
  }

  predicate AtMostOneRegistration(log: seq<Event>) {
    forall i, j :: 0 <= i < j < |log| && Registering(log[i]) ==> !Registering(log[j])
  }

  /** The registry does not miss a pre-registration made by an earlier run. */
  predicate Truthful(command: string, given: Hash, ios: seq<RunIo>) {
    forall n :: 0 <= n < |ios| && RegisteredIn(Runs(command, given, ios[..n]).1) ==> ios[n].registered
  }

  /** At most one event was added, and it did not pre-register. */
  predicate Quiet(log: seq<Event>, log': seq<Event>) {
    log' == log || (|log'| == |log| + 1 && log == log'[..|log|] && !Registering(log'[|log|]))
  }

  lemma QuietAttest(letter: char, command: string, p: Progress, io: StepIo)
    ensures Quiet(p.log, AttestStep(letter, false, command, p, io).log)
  {}

  lemma QuietCheck(command: string, given: Hash, p: Progress, inSync: bool, io: StepIo)
    ensures Quiet(p.log, CheckStep(command, given, p, inSync, io).log)
  {}

  lemma QuietPromote(command: string, p: Progress, proof: bool, promotion: Promotion)
    ensures Quiet(p.log, PromoteStep(command, p, proof, promotion).log)
  {}

  lemma QuietKeeps(log: seq<Event>, log': seq<Event>)
    requires AtMostOneRegistration(log) && Quiet(log, log')
    ensures AtMostOneRegistration(log')
  {}

  lemma FirstStepRegisters(registered: bool, command: string, p: Progress, io: StepIo)
    requires AtMostOneRegistration(p.log) && (RegisteredIn(p.log) ==> registered)
    ensures AtMostOneRegistration(AttestStep('r', !registered, command, p, io).log)
  {
    var log' := AttestStep('r', !registered, command, p, io).log;
    assert log' == p.log || (|log'| == |p.log| + 1 && log'[..|p.log|] == p.log);
    if registered { QuietAttest('r', command, p, io); QuietKeeps(p.log, log'); }
  }

  lemma RunRegisters(command: string, given: Hash, file: File, log: seq<Event>, io: RunIo)
    requires AtMostOneRegistration(log) && (RegisteredIn(log) ==> io.registered)
    ensures AtMostOneRegistration(RunOnce(command, given, file, log, io).1)
  {
    var p0 := Start(file, log);
    var p1 := AttestStep('r', !io.registered, command, p0, io.r);
    var p2 := AttestStep('R', false, command, p1, io.R);
    var p3 := CheckStep(command, given, p2, io.policyInSync, io.a);
    FirstStepRegisters(io.registered, command, p0, io.r);
    QuietAttest('R', command, p1, io.R);
    QuietKeeps(p1.log, p2.log);
    QuietCheck(command, given, p2, io.policyInSync, io.a);
    QuietKeeps(p2.log, p3.log);
    QuietPromote(command, p3, io.proof, io.promotion);
    QuietKeeps(p3.log, PromoteStep(command, p3, io.proof, io.promotion).log);
  }

  /** While the registry is truthful, the machine is pre-registered at most once, lost calls and crashes included. */
  lemma {:induction false} RegisteredOnce(command: string, given: Hash, ios: seq<RunIo>)
    requires Truthful(command, given, ios)
    ensures AtMostOneRegistration(Runs(command, given, ios).1)
  {
    if ios == [] {
    } else {
      var n := |ios| - 1;
      assert forall m :: 0 <= m < n ==> ios[..n][..m] == ios[..m];
      RegisteredOnce(command, given, ios[..n]);
      var (file, log) := Runs(command, given, ios[..n]);
      RunRegisters(command, given, file, log, ios[n]);
    }
  }

  // ---- progress ----

  /** What the state file says before a run; no file says that nothing is done. */
  function Recorded(file: File): State {
    if file.Saved? then file.state else State("", 0, 0)
  }

  predicate Wants(letter: char, command: string, completed: string) {
    letter in command && letter !in completed
  }

  function Letter(letter: char, wanted: bool): string {
    if wanted then [letter] else ""
  }

  /** The steps a run still owes, in order; a promotion is never recorded, so it is always owed. */
  function Owed(command: string, completed: string): string {
    Letter('r', Wants('r', command, completed)) + Letter('R', Wants('R', command, completed))
    + Letter('a', Wants('a', command, completed)) + Letter('p', 'p' in command)
  }

  function Steps(events: seq<Event>): string {
    if events == [] then "" else Steps(events[..|events| - 1]) + [StepOf(events[|events| - 1])]
  }

  predicate Succeeds(io: StepIo) {
    io.call.Returned? && !io.crash
  }

  /** Every step the run owes succeeds. */
  predicate NothingHalts(command: string, file: File, io: RunIo) {
    var completed := Recorded(file).completed;
    && io.readable && !file.Torn?
    && (Wants('r', command, completed) ==> Succeeds(io.r))
    && (Wants('R', command, completed) ==> Succeeds(io.R))
    && (Wants('a', command, completed) ==> io.policyInSync && Succeeds(io.a))
    && ('p' in command ==> io.proof && io.promotion.Confirmed?)
  }

  /** The newest attestation: of this run if it made one, else the recorded one. */
  function NewestAttestation(command: string, s: State, io: RunIo): Hash
    requires Wants('r', command, s.completed) ==> io.r.call.Returned?
    requires Wants('R', command, s.completed) ==> io.R.call.Returned?
  {
    if Wants('R', command, s.completed) then io.R.call.id
    else if Wants('r', command, s.completed) then io.r.call.id
    else s.attestation
  }

  function NewestCheck(command: string, s: State, io: RunIo): Hash
    requires Wants('a', command, s.completed) ==> io.a.call.Returned?
  {
    if Wants('a', command, s.completed) then io.a.call.id else s.instruction
  }

  /** The events of the steps up to the check. */
  function CompleteSteps(command: string, file: File, io: RunIo): (seq<Event>, seq<Event>, seq<Event>)
    requires NothingHalts(command, file, io)
  {
    var s := Recorded(file);
    var attestation := if 'r' in command || 'R' in command then NewestAttestation(command, s, io) else 0;
    (if Wants('r', command, s.completed) then [Attested('r', !io.registered, io.r.call.id)] else [],
     if Wants('R', command, s.completed) then [Attested('R', false, io.R.call.id)] else [],
     if Wants('a', command, s.completed) then [Checked(io.a.call.id, attestation)] else [])
  }

  /** The events of a run that nothing halts: one for each step it owes. */
  function CompleteRun(command: string, given: Hash, file: File, io: RunIo): seq<Event>
    requires NothingHalts(command, file, io)
  {
    var (r, R, a) := CompleteSteps(command, file, io);
    var id := if 'a' in command then NewestCheck(command, Recorded(file), io) else given;
    r + R + a + if 'p' in command then [Promoted(id)] else []
  }

  /** Every owed step was also saved. */
  predicate AllSaved(command: string, file: File, io: RunIo) {
    var completed := Recorded(file).completed;
    && (Wants('r', command, completed) ==> io.r.write.Written?)
    && (Wants('R', command, completed) ==> io.R.write.Written?)
    && (Wants('a', command, completed) ==> io.a.write.Written?)
  }

  /** What the file says after all that: the owed letters added, the newest attestation and check. */
  function CompleteFile(command: string, file: File, io: RunIo): File
    requires NothingHalts(command, file, io)
  {
    var s := Recorded(file);
    var letters := Letter('r', Wants('r', command, s.completed)) + Letter('R', Wants('R', command, s.completed))
                   + Letter('a', Wants('a', command, s.completed));
    if letters == "" then file
    else Saved(State(s.completed + letters, NewestAttestation(command, s, io), NewestCheck(command, s, io)))
  }

  /** A step for `r` or `R` that succeeds, if it is owed. */
  lemma AttestCompletes(letter: char, registering: bool, command: string, p: Progress, io: StepIo)
    requires !p.halted && (Wants(letter, command, p.state.completed) ==> Succeeds(io))
    ensures var p' := AttestStep(letter, registering, command, p, io);
            var wanted := Wants(letter, command, p.state.completed);
            && !p'.halted && p'.instruction == p.instruction
            && p'.log == p.log + (if wanted then [Attested(letter, registering, io.call.id)] else [])
            && p'.state == State(p.state.completed + Letter(letter, wanted),
                                 if wanted then io.call.id else p.state.attestation, p.state.instruction)
            && p'.attestation == (if letter in command then p'.state.attestation else p.attestation)
            && (wanted && io.write.Written? ==> p'.file == Saved(p'.state))
            && (!wanted ==> p'.file == p.file)
  {}

  lemma CheckCompletes(command: string, given: Hash, p: Progress, inSync: bool, io: StepIo)
    requires !p.halted && (Wants('a', command, p.state.completed) ==> inSync && Succeeds(io))
    ensures var p', wanted := CheckStep(command, given, p, inSync, io), Wants('a', command, p.state.completed);
            && !p'.halted
            && p'.log == p.log + (if wanted then [Checked(io.call.id, p.attestation)] else [])
            && p'.state == State(p.state.completed + Letter('a', wanted), p.state.attestation,
                                 if wanted then io.call.id else p.state.instruction)
            && p'.instruction == (if 'a' in command then p'.state.instruction else given)
            && (wanted && io.write.Written? ==> p'.file == Saved(p'.state))
            && (!wanted ==> p'.file == p.file)
  {}

  lemma Concat4(log: seq<Event>, a: seq<Event>, b: seq<Event>, c: seq<Event>, d: seq<Event>)
    ensures log + a + b + c + d == log + (a + b + c + d)
  {}

  lemma StepsComplete(command: string, given: Hash, file: File, log: seq<Event>, io: RunIo)
    requires NothingHalts(command, file, io)
    ensures var (p, s) := (UpToCheck(command, given, file, log, io), Recorded(file));
            var (r, R, a) := CompleteSteps(command, file, io);
            && !p.halted && p.log == log + r + R + a
            && p.instruction == (if 'a' in command then NewestCheck(command, s, io) else given)
            && (AllSaved(command, file, io) ==> p.file == CompleteFile(command, file, io))
  {
    var s, p0 := Recorded(file), Start(file, log);
    var p1 := AttestStep('r', !io.registered, command, p0, io.r);
    var p2 := AttestStep('R', false, command, p1, io.R);
    AttestCompletes('r', !io.registered, command, p0, io.r);
    SameWants('R', 'r', command, s.completed);
    AttestCompletes('R', false, command, p1, io.R);
    SameWants('a', 'r', command, s.completed);
    SameWants('a', 'R', command, p1.state.completed);
    CheckCompletes(command, given, p2, io.policyInSync, io.a);
    Concat3(s.completed, Letter('r', Wants('r', command, s.completed)), Letter('R', Wants('R', command, s.completed)),
            Letter('a', Wants('a', command, s.completed)));
  }

  lemma Concat3(s: string, a: string, b: string, c: string)
    ensures s + a + b + c == s + (a + b + c)
    ensures a + b + c == "" <==> a == "" && b == "" && c == ""
  {}

  /**
   * A run that nothing halts does every step its command still owes, once and in order: it pre-registers
   * exactly a machine that is not registered, promotes its newest check (or the given one if its command
   * makes none), and removes its file, or leaves it complete.
   */
  lemma RunCompletes(command: string, given: Hash, file: File, log: seq<Event>, io: RunIo)
    requires NothingHalts(command, file, io)
    ensures var (file', log') := RunOnce(command, given, file, log, io);
            && log' == log + CompleteRun(command, given, file, io)
            && (io.removed ==> file' == Absent)
            && (!io.removed && AllSaved(command, file, io) ==> file' == CompleteFile(command, file, io))
  {
    var (r, R, a) := CompleteSteps(command, file, io);
    StepsComplete(command, given, file, log, io);
    var id := if 'a' in command then NewestCheck(command, Recorded(file), io) else given;
    Concat4(log, r, R, a, if 'p' in command then [Promoted(id)] else []);
  }

  /** Recording one letter leaves the others wanted or not. */
  lemma SameWants(letter: char, other: char, command: string, completed: string)
    requires letter != other
    ensures forall wanted ::
              Wants(letter, command, completed + Letter(other, wanted)) == Wants(letter, command, completed)
  {}

  /** The log has grown by a prefix of the owed steps, all of them unless the run has halted. */
  predicate Reached(log: seq<Event>, p: Progress, owed: string) {
    && log <= p.log
    && Steps(p.log[|log|..]) <= owed
    && (!p.halted ==> Steps(p.log[|log|..]) == owed)
  }

  lemma StepsGrow(log: seq<Event>, log': seq<Event>, e: Event)
    requires log <= log'
    ensures log <= log' + [e] && Steps((log' + [e])[|log|..]) == Steps(log'[|log|..]) + [StepOf(e)]
  {
    var events := log'[|log|..];
    assert (log' + [e])[|log|..] == events + [e];
    assert (events + [e])[..|events|] == events;
  }

  lemma AttestReaches(log: seq<Event>, letter: char, registering: bool, command: string, p: Progress, io: StepIo,
                      owed: string)
    requires Reached(log, p, owed)
    ensures Reached(log, AttestStep(letter, registering, command, p, io),
                    owed + Letter(letter, Wants(letter, command, p.state.completed)))
  {
    if !io.call.Failed? { StepsGrow(log, p.log, Attested(letter, registering, io.call.id)); }
  }

  lemma CheckReaches(log: seq<Event>, command: string, given: Hash, p: Progress, inSync: bool, io: StepIo, owed: string)
    requires Reached(log, p, owed)
    ensures Reached(log, CheckStep(command, given, p, inSync, io),
                    owed + Letter('a', Wants('a', command, p.state.completed)))
  {
    if !io.call.Failed? { StepsGrow(log, p.log, Checked(io.call.id, p.attestation)); }
  }

  lemma PromoteReaches(log: seq<Event>, command: string, p: Progress, proof: bool, promotion: Promotion, owed: string)
    requires Reached(log, p, owed)
    ensures Reached(log, PromoteStep(command, p, proof, promotion), owed + Letter('p', 'p' in command))
  {
    StepsGrow(log, p.log, Promoted(p.instruction));
  }

  /** A step that does not halt leaves the run going, and adds its letter at most. */
  lemma AttestGoesOn(letter: char, registering: bool, command: string, p: Progress, io: StepIo)
    requires !AttestStep(letter, registering, command, p, io).halted
    ensures !p.halted && (Wants(letter, command, p.state.completed) ==> Succeeds(io))
  {}

  lemma CheckGoesOn(command: string, given: Hash, p: Progress, inSync: bool, io: StepIo)
    requires !CheckStep(command, given, p, inSync, io).halted
    ensures !p.halted && (Wants('a', command, p.state.completed) ==> inSync && Succeeds(io))
  {}

  /** A halted run does nothing more; until then each later letter is wanted as at the start. */
  predicate SameLetters(p: Progress, command: string, completed: string, letter: char) {
    Wants(letter, command, p.state.completed) == Wants(letter, command, completed)
  }

  lemma AttestKeepsLetters(letter: char, other: char, registering: bool, command: string, p: Progress, io: StepIo,
                           completed: string)
    requires letter != other && SameLetters(p, command, completed, other)
    ensures SameLetters(AttestStep(letter, registering, command, p, io), command, completed, other)
  {}

  lemma LettersAtEachStep(command: string, file: File, log: seq<Event>, io: RunIo)
    ensures var completed, p0 := Recorded(file).completed, Start(file, log);
            var p1 := AttestStep('r', !io.registered, command, p0, io.r);
            var p2 := AttestStep('R', false, command, p1, io.R);
            SameLetters(p1, command, completed, 'R') && SameLetters(p2, command, completed, 'a')
  {
    var completed, p0 := Recorded(file).completed, Start(file, log);
    var p1 := AttestStep('r', !io.registered, command, p0, io.r);
    AttestKeepsLetters('r', 'R', !io.registered, command, p0, io.r, completed);
    AttestKeepsLetters('r', 'a', !io.registered, command, p0, io.r, completed);
    AttestKeepsLetters('R', 'a', false, command, p1, io.R, completed);
  }

  /** However a run ends, what it did on chain is a prefix of the steps it owed, in order. */
  lemma RunStaysInOrder(command: string, given: Hash, file: File, log: seq<Event>, io: RunIo)
    ensures var log' := RunOnce(command, given, file, log, io).1;
            log <= log' && Steps(log'[|log|..]) <= Owed(command, Recorded(file).completed)
  {
    var completed := Recorded(file).completed;
    var p0 := Start(file, log);
    assert log[|log|..] == [];
    if io.readable {
      var p1 := AttestStep('r', !io.registered, command, p0, io.r);
      var p2 := AttestStep('R', false, command, p1, io.R);
      var p3 := CheckStep(command, given, p2, io.policyInSync, io.a);
      var r, R := Letter('r', Wants('r', command, completed)), Letter('R', Wants('R', command, completed));
      var a := Letter('a', Wants('a', command, completed));
      LettersAtEachStep(command, file, log, io);
      AttestReaches(log, 'r', !io.registered, command, p0, io.r, "");
      assert "" + r == r;
      AttestReaches(log, 'R', false, command, p1, io.R, r);
      CheckReaches(log, command, given, p2, io.policyInSync, io.a, r + R);
      PromoteReaches(log, command, p3, io.proof, io.promotion, r + R + a);
    }
  }

  /** A state file is removed only by a run that nothing halted; an unreadable or torn one stops the run at once. */
  lemma RemovedOnlyWhenComplete(command: string, given: Hash, file: File, log: seq<Event>, io: RunIo)
    ensures var (file', log') := RunOnce(command, given, file, log, io);
            && (file'.Absent? && !file.Absent? ==> NothingHalts(command, file, io) && io.removed)
            && (!io.readable || file.Torn? ==> file' == file && log' == log)
  {
    var p0 := Start(file, log);
    var p1 := AttestStep('r', !io.registered, command, p0, io.r);
    var p2 := AttestStep('R', false, command, p1, io.R);
    var p3 := CheckStep(command, given, p2, io.policyInSync, io.a);
    var p4 := PromoteStep(command, p3, io.proof, io.promotion);
    LettersAtEachStep(command, file, log, io);
    if !file.Absent? { KeepsFile(command, given, file, log, io); }
    if io.readable && !p4.halted {
      CheckGoesOn(command, given, p2, io.policyInSync, io.a);
      AttestGoesOn('R', false, command, p1, io.R);
      AttestGoesOn('r', !io.registered, command, p0, io.r);
    }
  }

  /** No step removes the file. */
  lemma KeepsFile(command: string, given: Hash, file: File, log: seq<Event>, io: RunIo)
    requires !file.Absent?
    ensures !UpToCheck(command, given, file, log, io).file.Absent?
  {
    var p1 := AttestStep('r', !io.registered, command, Start(file, log), io.r);
    AttestKeepsFile('r', !io.registered, command, Start(file, log), io.r);
    AttestKeepsFile('R', false, command, p1, io.R);
  }

  lemma AttestKeepsFile(letter: char, registering: bool, command: string, p: Progress, io: StepIo)
    requires !p.file.Absent?
    ensures !AttestStep(letter, registering, command, p, io).file.Absent?
  {}
}
