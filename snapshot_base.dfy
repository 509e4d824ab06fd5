/**
 * The control part every snapshot shares: the transaction protocol (start,
 * commit, widen-and-commit, freeze), the guard in front of every update, the
 * operational mode, and the allocation sites that make the k-th object or
 * array created in a transaction the same object in every transaction of the
 * same program point.
 */
module SnapshotBase {
  import opened Wrappers

  /** The operational mode of a snapshot. */
  datatype SnapshotMode = MemoryLevel | InfoLevel

  /** The `NotSupportedException`s of the control operations, and a failure of the concrete memory model's commit. */
  datatype ControlError =
    | AlreadyFrozen
    | TransactionAlreadyStarted
    | NoStartedTransaction
    | TransactionNotCommitted
    | AssistantAlreadySet
    | ImplementationFailure(message: string)

  /** The three control flags of a snapshot. */
  datatype Control = Control(transactionStarted: bool, frozen: bool, hasChanged: bool)

  /** The state a control operation leaves, and the exception it raised, if any. */
  datatype Step = Step(after: Control, failure: Option<ControlError>)

  /** No reachable snapshot is frozen in the middle of a transaction. */
  predicate Consistent(c: Control) {
    c.frozen ==> !c.transactionStarted
  }

  /** `checkFrozenState`. */
  function CheckFrozen(c: Control): (r: Option<ControlError>)
    ensures r.None? <==> !c.frozen
    ensures r.Some? ==> r.value == AlreadyFrozen
  {
    if c.frozen then Some(AlreadyFrozen) else None
  }

  /** `checkCanUpdate`: updates need an open transaction on a snapshot that is not frozen. */
  function CheckCanUpdate(c: Control): (r: Option<ControlError>)
    ensures r.None? <==> c.transactionStarted && !c.frozen
    ensures c.frozen ==> r == Some(AlreadyFrozen)
    ensures !c.frozen && !c.transactionStarted ==> r == Some(NoStartedTransaction)
  {
    if c.frozen then Some(AlreadyFrozen)
    else if !c.transactionStarted then Some(NoStartedTransaction)
    else None
  }

  /** `StartTransaction`: opens a transaction and clears `HasChanged`. */
  function StartStep(c: Control): (r: Step)
    ensures r.failure.None? <==> !c.frozen && !c.transactionStarted
    ensures r.failure.Some? ==> r.after == c
    ensures r.failure.None? ==> r.after.transactionStarted && !r.after.frozen && !r.after.hasChanged
  {
    if c.frozen then Step(c, Some(AlreadyFrozen))
    else if c.transactionStarted then Step(c, Some(TransactionAlreadyStarted))
    else Step(Control(true, false, false), None)
  }

  /**
   * `CommitTransaction` and `WidenAndCommitTransaction`: `changed` is what
   * the memory model's own commit reports, or the exception it raises. The
   * transaction is closed in a `finally`, so it is closed even then.
   */
  function CommitStep(c: Control, changed: Result<bool, string>): (r: Step)
    ensures c.frozen || !c.transactionStarted ==> r.after == c && r.failure.Some?
    ensures !c.frozen && c.transactionStarted ==> !r.after.transactionStarted && !r.after.frozen
    ensures !c.frozen && c.transactionStarted ==> (r.failure.None? <==> changed.Ok?)
    ensures !c.frozen && c.transactionStarted && changed.Ok? ==> r.after.hasChanged == changed.value
    ensures changed.Err? ==> r.after.hasChanged == c.hasChanged
  {
    if c.frozen then Step(c, Some(AlreadyFrozen))
    else if !c.transactionStarted then Step(c, Some(NoStartedTransaction))
    else match changed
      case Ok(d) => Step(Control(false, false, d), None)
      case Err(e) => Step(Control(false, false, c.hasChanged), Some(ImplementationFailure(e)))
  }

  /** `Freeze`: refused while a transaction is open. */
  function FreezeStep(c: Control): (r: Step)
    ensures r.failure.None? <==> !c.frozen && !c.transactionStarted
    ensures r.failure.Some? ==> r.after == c
    ensures r.failure.None? ==> r.after == c.(frozen := true)
  {
    if c.frozen then Step(c, Some(AlreadyFrozen))
    else if c.transactionStarted then Step(c, Some(TransactionNotCommitted))
    else Step(c.(frozen := true), None)
  }

  /** Every control operation keeps a snapshot consistent. */
  lemma ControlKeepsConsistency(c: Control, changed: Result<bool, string>)
    requires Consistent(c)
    ensures Consistent(StartStep(c).after)
    ensures Consistent(CommitStep(c, changed).after)
    ensures Consistent(FreezeStep(c).after)
  {
  }

  /** A commit of a consistent snapshot never leaves a transaction open, whether or not it fails. */
  lemma CommitClosesTransaction(c: Control, changed: Result<bool, string>)
    requires Consistent(c)
    ensures !CommitStep(c, changed).after.transactionStarted
  {
  }

  /** A frozen snapshot refuses every control operation and every update, and stays as it is. */
  lemma FrozenRefusesEverything(c: Control, changed: Result<bool, string>)
    requires c.frozen
    ensures StartStep(c) == Step(c, Some(AlreadyFrozen))
    ensures CommitStep(c, changed) == Step(c, Some(AlreadyFrozen))
    ensures FreezeStep(c) == Step(c, Some(AlreadyFrozen))
    ensures CheckCanUpdate(c) == Some(AlreadyFrozen)
  {
  }

  /** Starting and committing: updates are allowed exactly in between, and `HasChanged` then tells what the commit reported. */
  lemma TransactionRoundTrip(c: Control, changed: bool)
    requires !c.frozen && !c.transactionStarted
    ensures CheckCanUpdate(c).Some?
    ensures CheckCanUpdate(StartStep(c).after).None?
    ensures CommitStep(StartStep(c).after, Ok(changed)) == Step(Control(false, false, changed), None)
    ensures CheckCanUpdate(CommitStep(StartStep(c).after, Ok(changed)).after).Some?
  {
  }

  // ----- allocation sites -----

  /**
   * `AllocatedSites`: the sites recorded so far, in creation order, and the
   * cursor. A cursor at the end stands for the linked-list node `null`.
   */
  datatype Sites = Sites(sites: seq<nat>, cursor: nat)

  predicate CursorInRange(s: Sites) {
    s.cursor <= |s.sites|
  }

  /** `AllocatedSites.StartTransaction`: the cursor returns to the first site. */
  function Rewind(s: Sites): (r: Sites)
    ensures r.sites == s.sites && r.cursor == 0
  {
    s.(cursor := 0)
  }

  /**
   * One creation: the site under the cursor if there is one (and the cursor
   * moves on), otherwise the newly created value `created`, recorded at the end.
   * Once the cursor has fallen off the end it stays there.
   */
  function Allocate(s: Sites, created: nat): (r: (nat, Sites))
    requires CursorInRange(s)
    ensures CursorInRange(r.1)
    ensures s.cursor < |s.sites| ==> r.0 == s.sites[s.cursor] && r.1 == s.(cursor := s.cursor + 1)
    ensures s.cursor == |s.sites| ==> r.0 == created && r.1.sites == s.sites + [created] && r.1.cursor == |r.1.sites|
  {
    if s.cursor < |s.sites| then (s.sites[s.cursor], s.(cursor := s.cursor + 1))
    else (created, Sites(s.sites + [created], |s.sites| + 1))
  }

  /** The values returned by the creations of one transaction, each given the value a new creation would make. */
  function AllocateAll(s: Sites, created: seq<nat>): (r: (seq<nat>, Sites))
    requires CursorInRange(s)
    ensures |r.0| == |created| && CursorInRange(r.1)
    decreases |created|
  {
    if |created| == 0 then ([], s)
    else
      var (site, next) := Allocate(s, created[0]);
      var (rest, last) := AllocateAll(next, created[1..]);
      ([site] + rest, last)
  }

  /**
   * Replay: from a rewound cursor, the k-th creation of a transaction returns
   * the k-th recorded site when there is one and a new value otherwise, and
   * the new values are recorded at the end in creation order.
   */
  lemma {:induction false} AllocationReplaysSites(s: Sites, created: seq<nat>)
    requires CursorInRange(s)
    ensures forall k :: 0 <= k < |created| ==>
      AllocateAll(s, created).0[k] == (if s.cursor + k < |s.sites| then s.sites[s.cursor + k] else created[k])
    ensures AllocateAll(s, created).1.sites ==
      (if s.cursor + |created| <= |s.sites| then s.sites else s.sites + created[|s.sites| - s.cursor..])
    ensures AllocateAll(s, created).1.cursor ==
      (if s.cursor + |created| <= |s.sites| then s.cursor + |created| else |AllocateAll(s, created).1.sites|)
    decreases |created|
  {
    if |created| > 0 {
      var (site, next) := Allocate(s, created[0]);
      AllocationReplaysSites(next, created[1..]);
      var r := AllocateAll(s, created);
      var rest := AllocateAll(next, created[1..]);
      assert r.0 == [site] + rest.0 && r.1 == rest.1;
      forall k | 0 <= k < |created|
        ensures r.0[k] == (if s.cursor + k < |s.sites| then s.sites[s.cursor + k] else created[k])
      {
        if k > 0 {
          assert r.0[k] == rest.0[k - 1];
          assert created[1..][k - 1] == created[k];
        }
      }
      if s.cursor == |s.sites| {
        assert created[|s.sites| - s.cursor..] == [created[0]] + created[1..];
        assert created[1..][|next.sites| - next.cursor..] == created[1..];
      } else if s.cursor + |created| > |s.sites| {
        assert created[1..][|next.sites| - next.cursor..] == created[|s.sites| - s.cursor..];
      }
    }
  }

  /** The same program point processed twice creates the same objects the second time. */
  lemma SecondPassReusesSites(s: Sites, first: seq<nat>, second: seq<nat>)
    requires CursorInRange(s) && s.cursor == 0 && |s.sites| == 0 && |second| <= |first|
    ensures AllocateAll(Rewind(AllocateAll(s, first).1), second).0 == first[..|second|]
  {
    AllocationReplaysSites(s, first);
    var recorded := AllocateAll(s, first).1;
    assert recorded.sites == first;
    AllocationReplaysSites(Rewind(recorded), second);
  }

  // ----- the snapshot object -----

  /** The control state and allocation sites of one snapshot. */
  class Snapshot {
    var isTransactionStarted: bool
    var isFrozen: bool
    var hasChanged: bool
    var currentMode: SnapshotMode
    var simplifyLimit: int
    /** The memory assistant, once set. */
    var assistant: Option<nat>
    /** The `ModeSwitch` statistic. */
    var modeSwitches: nat
    var allocatedObjects: Sites
    var allocatedArrays: Sites

    function ControlState(): Control
      reads this
    {
      Control(isTransactionStarted, isFrozen, hasChanged)
    }

    ghost predicate Valid()
      reads this
    {
      Consistent(ControlState()) && CursorInRange(allocatedObjects) && CursorInRange(allocatedArrays)
    }

    constructor (mode: SnapshotMode, limit: int)
      ensures Valid()
      ensures ControlState() == Control(false, false, false) && currentMode == mode && simplifyLimit == limit
      ensures assistant.None? && modeSwitches == 0
      ensures allocatedObjects == Sites([], 0) && allocatedArrays == Sites([], 0)
    {
      isTransactionStarted, isFrozen, hasChanged := false, false, false;
      currentMode, simplifyLimit := mode, limit;
      assistant, modeSwitches := None, 0;
      allocatedObjects, allocatedArrays := Sites([], 0), Sites([], 0);
    }

    /** Sets the three control flags to `c`. */
    method SetControl(c: Control)
      modifies this
      ensures ControlState() == c
      ensures currentMode == old(currentMode) && simplifyLimit == old(simplifyLimit)
      ensures assistant == old(assistant) && modeSwitches == old(modeSwitches)
      ensures allocatedObjects == old(allocatedObjects) && allocatedArrays == old(allocatedArrays)
    {
      isTransactionStarted, isFrozen, hasChanged := c.transactionStarted, c.frozen, c.hasChanged;
    }

    /** `StartTransaction`: also rewinds both allocation cursors. */
    method StartTransaction() returns (failure: Option<ControlError>)
      requires Valid()
      modifies this
      ensures Valid()
      ensures ControlState() == StartStep(old(ControlState())).after
      ensures failure == StartStep(old(ControlState())).failure
      ensures failure.None? ==> allocatedObjects == Rewind(old(allocatedObjects)) && allocatedArrays == Rewind(old(allocatedArrays))
      ensures failure.Some? ==> allocatedObjects == old(allocatedObjects) && allocatedArrays == old(allocatedArrays)
      ensures currentMode == old(currentMode) && simplifyLimit == old(simplifyLimit)
      ensures assistant == old(assistant) && modeSwitches == old(modeSwitches)
    {
      var step := StartStep(ControlState());
      SetControl(step.after);
      failure := step.failure;
      if failure.None? {
        allocatedObjects := Rewind(allocatedObjects);
        allocatedArrays := Rewind(allocatedArrays);
      }
    }

    /** `CommitTransaction` or `WidenAndCommitTransaction`, given what the memory model's commit does. */
    method CommitTransaction(changed: Result<bool, string>) returns (failure: Option<ControlError>)
      requires Valid()
      modifies this
      ensures Valid()
      ensures ControlState() == CommitStep(old(ControlState()), changed).after
      ensures failure == CommitStep(old(ControlState()), changed).failure
      ensures !isTransactionStarted
      ensures allocatedObjects == old(allocatedObjects) && allocatedArrays == old(allocatedArrays)
      ensures currentMode == old(currentMode) && simplifyLimit == old(simplifyLimit)
      ensures assistant == old(assistant) && modeSwitches == old(modeSwitches)
    {
      var step := CommitStep(ControlState(), changed);
      SetControl(step.after);
      failure := step.failure;
    }

    method Freeze() returns (failure: Option<ControlError>)
      requires Valid()
      modifies this
      ensures Valid()
      ensures ControlState() == FreezeStep(old(ControlState())).after
      ensures failure == FreezeStep(old(ControlState())).failure
      ensures allocatedObjects == old(allocatedObjects) && allocatedArrays == old(allocatedArrays)
      ensures currentMode == old(currentMode) && simplifyLimit == old(simplifyLimit)
      ensures assistant == old(assistant) && modeSwitches == old(modeSwitches)
    {
      var step := FreezeStep(ControlState());
      SetControl(step.after);
      failure := step.failure;
    }

    /** `SetMode`: refused when frozen; setting the current mode changes nothing, not even the statistic. */
    method SetMode(mode: SnapshotMode) returns (failure: Option<ControlError>)
      modifies this
      ensures failure == CheckFrozen(old(ControlState()))
      ensures failure.None? && mode != old(currentMode) ==> currentMode == mode && modeSwitches == old(modeSwitches) + 1
      ensures failure.Some? || mode == old(currentMode) ==> currentMode == old(currentMode) && modeSwitches == old(modeSwitches)
      ensures ControlState() == old(ControlState()) && simplifyLimit == old(simplifyLimit) && assistant == old(assistant)
      ensures allocatedObjects == old(allocatedObjects) && allocatedArrays == old(allocatedArrays)
    {
      failure := CheckFrozen(ControlState());
      if failure.Some? || currentMode == mode {
        return;
      }
      modeSwitches := modeSwitches + 1;
      currentMode := mode;
    }

    /** `SetSimplifyLimit`: refused when frozen. */
    method SetSimplifyLimit(limit: int) returns (failure: Option<ControlError>)
      modifies this
      ensures failure == CheckFrozen(old(ControlState()))
      ensures simplifyLimit == (if failure.None? then limit else old(simplifyLimit))
      ensures ControlState() == old(ControlState()) && currentMode == old(currentMode) && assistant == old(assistant)
      ensures modeSwitches == old(modeSwitches)
      ensures allocatedObjects == old(allocatedObjects) && allocatedArrays == old(allocatedArrays)
    {
      failure := CheckFrozen(ControlState());
      if failure.None? && simplifyLimit != limit {
        simplifyLimit := limit;
      }
    }

    /** `InitAssistant`: the assistant can be set once. */
    method InitAssistant(a: nat) returns (failure: Option<ControlError>)
      modifies this
      ensures old(assistant).Some? ==> failure == Some(AssistantAlreadySet) && assistant == old(assistant)
      ensures old(assistant).None? ==> failure.None? && assistant == Some(a)
      ensures ControlState() == old(ControlState()) && currentMode == old(currentMode)
      ensures simplifyLimit == old(simplifyLimit) && modeSwitches == old(modeSwitches)
      ensures allocatedObjects == old(allocatedObjects) && allocatedArrays == old(allocatedArrays)
    {
      if assistant.Some? {
        return Some(AssistantAlreadySet);
      }
      assistant := Some(a);
      failure := None;
    }

    /**
     * `CreateObject`: after the update guard, the object of the next
     * allocation site, or `created` (the newly created object) recorded as a
     * new site. Initialising the object is the memory model's business.
     */
    method CreateObject(created: nat) returns (r: Result<nat, ControlError>)
      requires Valid()
      modifies this
      ensures Valid()
      ensures CheckCanUpdate(old(ControlState())).Some? ==>
        r == Err(CheckCanUpdate(old(ControlState())).value) && allocatedObjects == old(allocatedObjects)
      ensures CheckCanUpdate(old(ControlState())).None? ==>
        r == Ok(Allocate(old(allocatedObjects), created).0) && allocatedObjects == Allocate(old(allocatedObjects), created).1
      ensures allocatedArrays == old(allocatedArrays) && ControlState() == old(ControlState())
      ensures currentMode == old(currentMode) && simplifyLimit == old(simplifyLimit)
      ensures assistant == old(assistant) && modeSwitches == old(modeSwitches)
    {
      var guard := CheckCanUpdate(ControlState());
      if guard.Some? {
        return Err(guard.value);
      }
      var (site, next) := Allocate(allocatedObjects, created);
      allocatedObjects := next;
      r := Ok(site);
    }

    /** `CreateArray`: the same as `CreateObject`, over the array sites. */
    method CreateArray(created: nat) returns (r: Result<nat, ControlError>)
      requires Valid()
      modifies this
      ensures Valid()
      ensures CheckCanUpdate(old(ControlState())).Some? ==>
        r == Err(CheckCanUpdate(old(ControlState())).value) && allocatedArrays == old(allocatedArrays)
      ensures CheckCanUpdate(old(ControlState())).None? ==>
        r == Ok(Allocate(old(allocatedArrays), created).0) && allocatedArrays == Allocate(old(allocatedArrays), created).1
      ensures allocatedObjects == old(allocatedObjects) && ControlState() == old(ControlState())
      ensures currentMode == old(currentMode) && simplifyLimit == old(simplifyLimit)
      ensures assistant == old(assistant) && modeSwitches == old(modeSwitches)
    {
      var guard := CheckCanUpdate(ControlState());
      if guard.Some? {
        return Err(guard.value);
      }
      var (site, next) := Allocate(allocatedArrays, created);
      allocatedArrays := next;
      r := Ok(site);
    }
  }

  /** Two passes over one program point: the second pass creates the very objects of the first. */
  method ProgramPointRevisited(first: nat, second: nat) returns (a: nat, b: nat)
    ensures a == b
  {
    var s := new Snapshot(MemoryLevel, 100);
    var f := s.StartTransaction();
    var r1 := s.CreateObject(first);
    f := s.CommitTransaction(Ok(true));
    f := s.StartTransaction();
    var r2 := s.CreateObject(second);
    a, b := r1.value, r2.value;
  }
}
