/** Trust-store transactions against storage that may fail at any step and may lie about having failed. */
module TrustTransactions {
  import opened Options
  import opened JsStrings
  import opened TrustFingerprint
  import opened DeviceTrust

  /** The file on disk. */
  datatype File = Holds(devices: seq<Device>) | Unreadable

  /** How a save goes. A save that reports failure may have left anything, since the rename precedes the
      directory sync that fails; one that reports success may, wrongly, have left something else. */
  datatype Save = Written | Failed(left: File) | Misreported(left: File)

  /** What the storage does during one transaction. */
  datatype Io = Io(save: Save, readable: bool, restore: Save, rereadable: bool)

  /** The authoritative store in memory, the file, and the fail-closed latch. */
  datatype World = World(memory: seq<Device>, file: File, latched: bool)

  datatype Outcome = Committed | Rejected | StorageFailed(latched: bool)

  type Mutate = seq<Device> -> Option<seq<Device>>

  /** Data that does not validate is refused before anything is written. */
  function FileAfter(file: File, data: seq<Device>, how: Save): File {
    if !WellFormed(data) then file
    else match how
      case Written => Holds(data)
      case Failed(left) => left
      case Misreported(left) => left
  }

  predicate SaveReturns(data: seq<Device>, how: Save) {
    WellFormed(data) && !how.Failed?
  }

  /** The loader validates what it reads. */
  function Loaded(file: File, readable: bool): Option<seq<Device>> {
    if readable && file.Holds? && WellFormed(file.devices) then Some(file.devices) else None
  }

  predicate Matches(loaded: Option<seq<Device>>, expected: seq<Device>) {
    loaded.Some? && Fingerprint(loaded.value) == Fingerprint(expected)
  }

  /** `restorePreTransactionState` */
  function Restore(w: World, before: seq<Device>, io: Io): World {
    var installed := Loaded(w.file, io.readable);
    if installed.None? then w.(latched := true)
    else if Matches(installed, before) then w
    else
      var file := FileAfter(w.file, before, io.restore);
      if SaveReturns(before, io.restore) && Matches(Loaded(file, io.rereadable), before) then w.(file := file)
      else w.(file := file, latched := true)
  }

  /** Build a candidate, save it, and only then let it become authoritative. */
  function Attempt(w: World, mutate: Mutate, io: Io): (World, Outcome) {
    var candidate := mutate(w.memory);
    if candidate.None? then (w, Rejected)
    else
      var saved := w.(file := FileAfter(w.file, candidate.value, io.save));
      if SaveReturns(candidate.value, io.save) then (saved.(memory := candidate.value), Committed)
      else
        var after := Restore(saved, w.memory, io);
        (after, StorageFailed(after.latched))
  }

  /** `applyTrustStoreMutation` */
  function Apply(w: World, mutate: Mutate, io: Io): (World, Outcome) {
    if w.latched then (w, StorageFailed(true)) else Attempt(w, mutate, io)
  }

  /** An operator's mutation, or the activation of an enrolled device. The activation runs after the request
      body has been read, when the latch may have been set since it was last looked at. */
  datatype Op = Administer(mutate: Mutate, io: Io) | Activate(mutate: Mutate, io: Io)

  function Step(w: World, op: Op): (World, Outcome) {
    match op
    case Administer(mutate, io) => Apply(w, mutate, io)
    case Activate(mutate, io) => Attempt(w, mutate, io)
  }

  function Run(w: World, ops: seq<Op>): World
    decreases |ops|
  {
    if ops == [] then w else Run(Step(w, ops[0]).0, ops[1..])
  }

  // ----- memory and file keep the same trust -----------------------------------

  ghost predicate InStep(w: World) {
    w.file.Holds? && WellFormed(w.file.devices) && Agree(w.file.devices, w.memory)
  }

  ghost predicate Sound(w: World) {
    WellFormed(w.memory) && (w.latched || InStep(w))
  }

  /** No save of a candidate reports success it did not have; restoring saves may. */
  ghost predicate Honest(op: Op) {
    !op.io.save.Misreported?
  }

  lemma AgreeReflexive(devices: seq<Device>)
    ensures Agree(devices, devices)
  {
    forall i | 0 <= i < |devices| ensures Present(devices[i], devices) {
      assert SameDevice(devices[i], devices[i]);
    }
  }

  lemma MatchesMeans(file: File, readable: bool, expected: seq<Device>)
    requires WellFormed(expected)
    ensures Matches(Loaded(file, readable), expected) ==>
      file.Holds? && WellFormed(file.devices) && Agree(file.devices, expected)
  {
    if Loaded(file, readable).Some? {
      FingerprintDecidesAgreement(file.devices, expected);
    }
  }

  /** After a failed save either the earlier trust is provably back or the latch is set, whatever the storage did. */
  lemma RestoreProves(w: World, io: Io)
    requires WellFormed(w.memory)
    ensures var after := Restore(w, w.memory, io);
      Sound(after) && after.memory == w.memory && (w.latched ==> after.latched)
  {
    MatchesMeans(w.file, io.readable, w.memory);
    MatchesMeans(FileAfter(w.file, w.memory, io.restore), io.rereadable, w.memory);
  }

  /** The latch is not set by storage that recovers. */
  lemma RestoreSucceeds(w: World, io: Io)
    requires WellFormed(w.memory) && !w.latched
    requires w.file.Holds? && WellFormed(w.file.devices)
    requires io.readable && io.rereadable && io.restore == Written
    ensures !Restore(w, w.memory, io).latched && InStep(Restore(w, w.memory, io))
  {
    RestoreProves(w, io);
  }

  /** The file can be read and holds the earlier trust. */
  ghost predicate ShowsTrust(file: File, readable: bool, before: seq<Device>) {
    readable && file.Holds? && WellFormed(file.devices) && Agree(file.devices, before)
  }

  lemma MatchesExactly(file: File, readable: bool, before: seq<Device>)
    requires WellFormed(before)
    ensures Matches(Loaded(file, readable), before) <==> ShowsTrust(file, readable, before)
  {
    if Loaded(file, readable).Some? {
      FingerprintDecidesAgreement(file.devices, before);
    }
  }

  /** Where a restoration ends: untouched when the file shows the earlier trust; otherwise latched when it cannot be
      read as a valid store; otherwise the earlier trust is written back, and the latch is set exactly when that write
      fails or the file then does not show it. */
  lemma RestoreExactly(w: World, io: Io)
    requires WellFormed(w.memory)
    ensures var after := Restore(w, w.memory, io);
      if ShowsTrust(w.file, io.readable, w.memory) then after == w
      else if !io.readable || !w.file.Holds? || !WellFormed(w.file.devices) then after == w.(latched := true)
      else
        && after.memory == w.memory
        && after.file == (match io.restore
                          case Written => Holds(w.memory)
                          case Failed(left) => left
                          case Misreported(left) => left)
        && (after.latched <==> w.latched || io.restore.Failed? || !ShowsTrust(after.file, io.rereadable, w.memory))
  {
    MatchesExactly(w.file, io.readable, w.memory);
    MatchesExactly(FileAfter(w.file, w.memory, io.restore), io.rereadable, w.memory);
  }

  lemma AttemptKeeps(w: World, mutate: Mutate, io: Io)
    requires Sound(w) && !io.save.Misreported?
    ensures Sound(Attempt(w, mutate, io).0) && (w.latched ==> Attempt(w, mutate, io).0.latched)
  {
    var candidate := mutate(w.memory);
    if candidate.Some? {
      if SaveReturns(candidate.value, io.save) {
        AgreeReflexive(candidate.value);
      } else {
        RestoreProves(w.(file := FileAfter(w.file, candidate.value, io.save)), io);
      }
    }
  }

  lemma StepKeeps(w: World, op: Op)
    requires Sound(w) && Honest(op)
    ensures Sound(Step(w, op).0) && (w.latched ==> Step(w, op).0.latched)
  {
    AttemptKeeps(w, op.mutate, op.io);
  }

  /** What each answer says about memory and file, of a mutation and of an activation, before and after the latch. */
  lemma AnswersAreTrue(w: World, op: Op)
    requires Sound(w) && Honest(op)
    ensures var (after, outcome) := Step(w, op);
      match outcome
      case Committed =>
        && op.mutate(w.memory).Some? && after.memory == op.mutate(w.memory).value
        && after.file == Holds(after.memory) && after.latched == w.latched && (op.Administer? ==> !w.latched)
      case Rejected => after == w && op.mutate(w.memory).None?
      case StorageFailed(latched) =>
        && after.memory == w.memory && latched == after.latched && (w.latched ==> latched)
        && (!latched ==> InStep(after)) && (op.Administer? && w.latched ==> after == w)
  {
    StepKeeps(w, op);
    if op.mutate(w.memory).Some? {
      RestoreProves(w.(file := FileAfter(w.file, op.mutate(w.memory).value, op.io.save)), op.io);
    }
  }

  /** When each answer is given: REJECTED for a mutation that is refused, COMMITTED for one whose result validates and
      is saved, and STORAGE_FAILED otherwise; an operator's only while the latch is not set. */
  lemma AnswersExactly(w: World, op: Op)
    ensures var (open, result) := (!(op.Administer? && w.latched), op.mutate(w.memory));
      && (Step(w, op).1.Rejected? <==> open && result.None?)
      && (Step(w, op).1.Committed? <==>
            open && result.Some? && WellFormed(result.value) && (op.io.save.Written? || op.io.save.Misreported?))
  {
  }

  /** The state after the committed mutations alone, each applied to the one before. */
  function Replayed(memory: seq<Device>, w: World, ops: seq<Op>): seq<Device>
    decreases |ops|
  {
    if ops == [] then memory
    else
      var (next, outcome) := Step(w, ops[0]);
      var result := ops[0].mutate(memory);
      Replayed(if outcome.Committed? && result.Some? then result.value else memory, next, ops[1..])
  }

  /** Over every run: memory and file hold the same trust unless the latch is set, the latch is never
      cleared, and memory is exactly the committed mutations in order. */
  lemma {:induction false} RunKeeps(w: World, ops: seq<Op>)
    requires Sound(w) && forall i :: 0 <= i < |ops| ==> Honest(ops[i])
    ensures var after := Run(w, ops);
      && Sound(after)
      && (w.latched ==> after.latched)
      && after.memory == Replayed(w.memory, w, ops)
    decreases |ops|
  {
    if ops != [] {
      var (next, outcome) := Step(w, ops[0]);
      StepKeeps(w, ops[0]);
      if ops[0].mutate(w.memory).Some? {
        RestoreProves(w.(file := FileAfter(w.file, ops[0].mutate(w.memory).value, ops[0].io.save)), ops[0].io);
      }
      RunKeeps(next, ops[1..]);
    }
  }

  lemma PreservesTransitive(a: seq<Device>, b: seq<Device>, c: seq<Device>)
    requires Preserves(a, b) && Preserves(b, c)
    ensures Preserves(a, c)
  {
    forall i | 0 <= i < |a| ensures SameBinding(a[i], c[i]) {
      assert SameBinding(a[i], b[i]) && SameBinding(b[i], c[i]);
    }
  }

  /** A run of the store's own mutations, each new device under a fresh id. */
  ghost predicate Mutations(w: World, ops: seq<Op>, ms: seq<Mutation>)
    decreases |ops|
  {
    && |ms| == |ops|
    && (ops != [] ==>
        && ops[0].mutate(w.memory) == Mutated(w.memory, ms[0])
        && FreshId(w.memory, ms[0])
        && Mutations(Step(w, ops[0]).0, ops[1..], ms[1..]))
  }

  /** Over every run of mutations, with storage doing what it likes, the authoritative store keeps every
      enrolled device bound to its client, and a revoked device stays revoked. */
  lemma {:induction false} RunPreserves(w: World, ops: seq<Op>, ms: seq<Mutation>)
    requires Mutations(w, ops, ms)
    ensures Preserves(w.memory, Run(w, ops).memory)
    decreases |ops|
  {
    if ops != [] {
      var next := Step(w, ops[0]).0;
      if Mutated(w.memory, ms[0]).Some? {
        MutationPreserves(w.memory, ms[0]);
      }
      assert Preserves(w.memory, next.memory);
      RunPreserves(next, ops[1..], ms[1..]);
      PreservesTransitive(w.memory, next.memory, Run(w, ops).memory);
    }
  }

  /** A device with this id is stored and revoked. */
  ghost predicate IsRevoked(devices: seq<Device>, deviceId: JsString) {
    exists i: nat :: EnrolledAt(devices, deviceId, i) && devices[i].revoked
  }

  lemma PreservesRevoked(before: seq<Device>, after: seq<Device>, deviceId: JsString)
    requires Preserves(before, after) && IsRevoked(before, deviceId)
    ensures IsRevoked(after, deviceId)
  {
    var i: nat :| EnrolledAt(before, deviceId, i) && before[i].revoked;
    assert SameBinding(before[i], after[i]);
    assert EnrolledAt(after, deviceId, i);
  }

  lemma WithinRevoked(file: seq<Device>, memory: seq<Device>, deviceId: JsString)
    requires Within(memory, file) && IsRevoked(memory, deviceId)
    ensures IsRevoked(file, deviceId)
  {
    var i: nat :| EnrolledAt(memory, deviceId, i) && memory[i].revoked;
    assert Present(memory[i], file);
    var j :| 0 <= j < |file| && SameDevice(memory[i], file[j]);
    assert EnrolledAt(file, deviceId, j);
  }

  /** A committed revocation marks the device in memory and in the file. */
  lemma RevocationCommits(w: World, op: Op, deviceId: JsString)
    requires Sound(w) && Honest(op) && op.mutate(w.memory) == Mutated(w.memory, Revoke(deviceId))
    requires Step(w, op).1.Committed?
    ensures var after := Step(w, op).0;
      IsRevoked(after.memory, deviceId) && after.file == Holds(after.memory)
  {
    AnswersAreTrue(w, op);
    PlaceIs(w.memory, deviceId, 0);
    var i := IndexOfId(w.memory, deviceId);
    RevokeDoes(w.memory, deviceId, i);
    PlaceIs(w.memory, deviceId, i);
    assert EnrolledAt(Step(w, op).0.memory, deviceId, i);
  }

  /** After a committed revocation the device is revoked in every later memory, and in the file unless the latch says
      that the file is in doubt; whatever the mutations and the storage do. */
  lemma RevocationLasts(w: World, op: Op, deviceId: JsString, ops: seq<Op>, ms: seq<Mutation>)
    requires Sound(w) && Honest(op) && op.mutate(w.memory) == Mutated(w.memory, Revoke(deviceId))
    requires Step(w, op).1.Committed? && Mutations(Step(w, op).0, ops, ms)
    requires forall i :: 0 <= i < |ops| ==> Honest(ops[i])
    ensures var after := Run(Step(w, op).0, ops);
      && IsRevoked(after.memory, deviceId)
      && (after.latched || (after.file.Holds? && IsRevoked(after.file.devices, deviceId)))
  {
    RevocationCommits(w, op, deviceId);
    StepKeeps(w, op);
    var w' := Step(w, op).0;
    RunPreserves(w', ops, ms);
    RunKeeps(w', ops);
    PreservesRevoked(w'.memory, Run(w', ops).memory, deviceId);
    if !Run(w', ops).latched {
      WithinRevoked(Run(w', ops).file.devices, Run(w', ops).memory, deviceId);
    }
  }

  /** Once latched, an operator's mutations are all refused and change nothing. */
  lemma {:induction false} LatchRefuses(w: World, ops: seq<Op>)
    requires w.latched && forall i :: 0 <= i < |ops| ==> ops[i].Administer?
    ensures Run(w, ops) == w
    decreases |ops|
  {
    if ops != [] {
      LatchRefuses(w, ops[1..]);
    }
  }

  /** Honest reporting is needed: a save that wrongly reports success commits over a file that disagrees. */
  lemma MisreportedSaveDiverges(d: Device)
    requires ValidTexts(d) && ValidPins(d.pins)
    ensures var w := World([], Holds([]), false);
      var after := Apply(w, _ => Some([d]), Io(Misreported(Holds([])), true, Written, true)).0;
      Sound(w) && !Sound(after)
  {
    AgreeReflexive([]);
    assert !Within([d], []) by {
      assert [d][0] == d;
    }
  }

  // ----- the objects -----------------------------------------------------------

  class TrustFile {
    var content: File

    constructor (content: File)
      ensures this.content == content
    {
      this.content := content;
    }

    /** Returns false where the storage throws. */
    method Save(data: seq<Device>, how: Save) returns (ok: bool)
      modifies this
      ensures content == FileAfter(old(content), data, how) && ok == SaveReturns(data, how)
    {
      if !WellFormed(data) {
        return false;
      }
      match how {
        case Written => content := Holds(data); return true;
        case Failed(left) => content := left; return false;
        case Misreported(left) => content := left; return true;
      }
    }

    method Load(readable: bool) returns (loaded: Option<seq<Device>>)
      ensures loaded == Loaded(content, readable)
    {
      if !readable || content.Unreadable? || !WellFormed(content.devices) {
        return None;
      }
      return Some(content.devices);
    }
  }

  class EnrollmentBootstrap {
    var authoritativeTrustStore: seq<Device>
    var storageLatched: bool
    const storage: TrustFile

    constructor (store: seq<Device>, storage: TrustFile)
      ensures State() == World(store, storage.content, false) && this.storage == storage
    {
      authoritativeTrustStore := store;
      storageLatched := false;
      this.storage := storage;
    }

    function State(): World
      reads this, storage
    {
      World(authoritativeTrustStore, storage.content, storageLatched)
    }

    method RestorePreTransactionState(before: seq<Device>, io: Io)
      modifies this`storageLatched, storage
      ensures State() == Restore(old(State()), before, io)
    {
      var expected := Fingerprint(before);
      var installed := storage.Load(io.readable);
      if installed.None? {
        storageLatched := true;
        return;
      }
      if Fingerprint(installed.value) == expected {
        return;
      }
      var saved := storage.Save(before, io.restore);
      if !saved {
        storageLatched := true;
        return;
      }
      var restored := storage.Load(io.rereadable);
      if restored.None? || Fingerprint(restored.value) != expected {
        storageLatched := true;
      }
    }

    /** The transaction that mutations and activations share. */
    method Transact(mutate: Mutate, io: Io) returns (outcome: Outcome)
      modifies this, storage
      ensures (State(), outcome) == Attempt(old(State()), mutate, io)
    {
      var before := authoritativeTrustStore;
      var candidate := mutate(before);
      if candidate.None? {
        return Rejected;
      }
      var saved := storage.Save(candidate.value, io.save);
      if !saved {
        RestorePreTransactionState(before, io);
        return StorageFailed(storageLatched);
      }
      authoritativeTrustStore := candidate.value;
      return Committed;
    }

    method ApplyTrustStoreMutation(mutate: Mutate, io: Io) returns (outcome: Outcome)
      requires Sound(State()) && !io.save.Misreported?
      modifies this, storage
      ensures (State(), outcome) == Apply(old(State()), mutate, io)
      ensures Sound(State()) && (old(storageLatched) ==> storageLatched)
    {
      AttemptKeeps(State(), mutate, io);
      if storageLatched {
        return StorageFailed(true);
      }
      outcome := Transact(mutate, io);
    }

    /** Returns false where the source throws. */
    method ActivateDevice(enroll: Mutate, io: Io) returns (ok: bool)
      requires Sound(State()) && !io.save.Misreported?
      modifies this, storage
      ensures var (after, outcome) := Attempt(old(State()), enroll, io);
        State() == after && ok == outcome.Committed?
      ensures Sound(State()) && (old(storageLatched) ==> storageLatched)
    {
      AttemptKeeps(State(), enroll, io);
      var outcome := Transact(enroll, io);
      return outcome.Committed?;
    }
  }
}
