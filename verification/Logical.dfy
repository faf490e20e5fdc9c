/** The logical state of one client (internal/session/logical.go): a record, its transitions, and the object that holds it. */
module LogicalState {
  import opened Wrappers
  import opened Statements

  datatype ReuseState = Multiplexable | Replayable | Pinned | Poisoned

  datatype PinReason =
    PinNone | PinTransaction | PinAutocommitOff | PinPrepared | PinUserVariable | PinTemporary | PinLock | PinPoisoned

  datatype Baseline = Baseline(
    database: string, isolation: string, charset: string, collation: string, timeZone: string, sqlMode: string)

  /** The settings that a baseline fixes, together with the read-only flag. */
  datatype Settings = Settings(
    database: string, isolation: string, readOnly: bool, charset: string,
    collation: string, timeZone: string, sqlMode: string)

  datatype Record = Record(
    baseline: Baseline,
    settings: Settings,
    autocommit: bool,
    inTransaction: bool,
    warnings: uint16,
    lastInsertId: uint64,
    prepared: set<uint32>,
    userVariables: bool,
    temporaryState: bool,
    lockRisk: bool,
    poisoned: bool)

  function BaselineSettings(b: Baseline): Settings {
    Settings(b.database, b.isolation, false, b.charset, b.collation, b.timeZone, b.sqlMode)
  }

  function Fresh(b: Baseline): Record {
    Record(b, BaselineSettings(b), true, false, 0, 0, {}, false, false, false, false)
  }

  /** The outcome of `Apply`: every call clears the diagnostics first, also one that is refused. */
  function Applied(r: Record, kind: Kind): (Record, bool) {
    var c := r.(warnings := 0, lastInsertId := 0);
    match kind
    case Read | Write | DDL | WarningCount | UseDatabase => (c, true)
    case Begin => if c.inTransaction then (c, false) else (c.(inTransaction := true), true)
    case Commit | Rollback => (c.(inTransaction := false), true)
    case Savepoint => (c, c.inTransaction)
    case AutocommitOff => (c.(autocommit := false), true)
    case AutocommitOn => (c.(autocommit := true, inTransaction := false), true)
    case SetNames => (c.(settings := c.settings.(charset := "utf8mb4")), true)
    case Empty | Unsupported => (c, false)
    case Unrecognized => (c.(poisoned := true), false)
  }

  function ReuseOf(r: Record): (ReuseState, PinReason) {
    if r.poisoned then (Poisoned, PinPoisoned)
    else if r.inTransaction then (Pinned, PinTransaction)
    else if !r.autocommit then (Pinned, PinAutocommitOff)
    else if r.prepared != {} then (Pinned, PinPrepared)
    else if r.userVariables then (Pinned, PinUserVariable)
    else if r.temporaryState then (Pinned, PinTemporary)
    else if r.lockRisk then (Pinned, PinLock)
    else if r.settings != BaselineSettings(r.baseline) then (Replayable, PinNone)
    else (Multiplexable, PinNone)
  }

  /**
   * What a statement does to each part of the record, whichever it is: the diagnostics always go, SET NAMES
   * alone touches the settings, autocommit and the transaction flag follow their own statements, and only
   * an unknown kind poisons.
   */
  lemma AppliedByPart(r: Record, kind: Kind)
    ensures var (s, ok) := Applied(r, kind);
            && s.warnings == 0 && s.lastInsertId == 0
            && s.settings == (if kind.SetNames? then r.settings.(charset := "utf8mb4") else r.settings)
            && s.autocommit == ((r.autocommit && !kind.AutocommitOff?) || kind.AutocommitOn?)
            && s.inTransaction == (kind.Begin? || (r.inTransaction && !kind.Commit? && !kind.Rollback? && !kind.AutocommitOn?))
            && s.poisoned == (r.poisoned || kind.Unrecognized?)
            && s.baseline == r.baseline && s.prepared == r.prepared
            && s.userVariables == r.userVariables && s.temporaryState == r.temporaryState && s.lockRisk == r.lockRisk
            && (ok <==> !(kind.Begin? && r.inTransaction) && !(kind.Savepoint? && !r.inTransaction)
                        && !kind.Empty? && !kind.Unsupported? && !kind.Unrecognized?)
  {
  }

  /** A clean record: nothing of the client's would be lost or seen on another connection. */
  predicate Untied(r: Record) {
    && !r.poisoned && !r.inTransaction && r.autocommit && r.prepared == {}
    && !r.userVariables && !r.temporaryState && !r.lockRisk
  }

  /** Whether a session may share connections, and the first reason in this order why it may not. */
  lemma ReuseIff(r: Record)
    ensures var (state, reason) := ReuseOf(r);
            && (state.Poisoned? <==> r.poisoned)
            && (state.Multiplexable? <==> Untied(r) && r.settings == BaselineSettings(r.baseline))
            && (state.Replayable? <==> Untied(r) && r.settings != BaselineSettings(r.baseline))
            && (reason == PinNone <==> Untied(r))
            && (reason == PinPoisoned <==> r.poisoned)
            && (reason == PinTransaction <==> !r.poisoned && r.inTransaction)
            && (reason == PinAutocommitOff <==> !r.poisoned && !r.inTransaction && !r.autocommit)
            && (reason == PinPrepared <==> !r.poisoned && !r.inTransaction && r.autocommit && r.prepared != {})
            && (reason in {PinUserVariable, PinTemporary, PinLock} ==> r.userVariables || r.temporaryState || r.lockRisk)
            && (reason == PinUserVariable ==> r.userVariables) && (reason == PinTemporary ==> r.temporaryState)
            && (reason == PinLock ==> r.lockRisk)
  {
  }

  /** `Logical`: fields updated in place. */
  class Logical {
    const baseline: Baseline
    var settings: Settings
    var autocommit: bool
    var inTransaction: bool
    var warnings: uint16
    var lastInsertId: uint64
    var prepared: set<uint32>
    var userVariables: bool
    var temporaryState: bool
    var lockRisk: bool
    var poisoned: bool

    function View(): Record
      reads this
    {
      Record(baseline, settings, autocommit, inTransaction, warnings, lastInsertId,
             prepared, userVariables, temporaryState, lockRisk, poisoned)
    }

    constructor (baseline: Baseline)
      ensures View() == Fresh(baseline)
    {
      this.baseline := baseline;
      new;
      Reset();
    }

    method Reset()
      modifies this
      ensures View() == Fresh(baseline)
    {
      settings := BaselineSettings(baseline);
      autocommit := true;
      inTransaction := false;
      warnings := 0;
      lastInsertId := 0;
      prepared := {};
      userVariables := false;
      temporaryState := false;
      lockRisk := false;
      poisoned := false;
    }

    method Apply(kind: Kind) returns (ok: bool)
      modifies this
      ensures (View(), ok) == Applied(old(View()), kind)
    {
      warnings, lastInsertId := 0, 0;
      ok := true;
      match kind
      case Read | Write | DDL | WarningCount | UseDatabase =>
      case Begin =>
        if inTransaction {
          ok := false;
        } else {
          inTransaction := true;
        }
      case Commit | Rollback =>
        inTransaction := false;
      case Savepoint =>
        ok := inTransaction;
      case AutocommitOff =>
        autocommit := false;
      case AutocommitOn =>
        autocommit, inTransaction := true, false;
      case SetNames =>
        settings := settings.(charset := "utf8mb4");
      case Empty | Unsupported =>
        ok := false;
      case Unrecognized =>
        poisoned, ok := true, false;
    }

    method SelectDatabase(name: string) returns (ok: bool)
      modifies this
      ensures ok <==> name != ""
      ensures View() == if ok then old(View()).(settings := old(View()).settings.(database := name)) else old(View())
    {
      ok := name != "";
      if ok {
        settings := settings.(database := name);
      }
    }

    method SetResult(warnings: uint16, lastInsertId: uint64)
      modifies this`warnings, this`lastInsertId
      ensures View() == old(View()).(warnings := warnings, lastInsertId := lastInsertId)
    {
      this.warnings, this.lastInsertId := warnings, lastInsertId;
    }

    method AddPrepared(id: uint32) returns (ok: bool)
      modifies this`prepared
      ensures ok <==> id != 0 && id !in old(prepared)
      ensures View() == if ok then old(View()).(prepared := old(prepared) + {id}) else old(View())
    {
      ok := id != 0 && id !in prepared;
      if ok {
        prepared := prepared + {id};
      }
    }

    method RemovePrepared(id: uint32) returns (existed: bool)
      modifies this`prepared
      ensures existed <==> id in old(prepared)
      ensures View() == old(View()).(prepared := old(prepared) - {id})
    {
      existed := id in prepared;
      prepared := prepared - {id};
    }

    method Poison()
      modifies this`poisoned
      ensures View() == old(View()).(poisoned := true)
    {
      poisoned := true;
    }

    method Reuse() returns (state: ReuseState, reason: PinReason)
      ensures (state, reason) == ReuseOf(View())
    {
      if poisoned {
        state, reason := Poisoned, PinPoisoned;
      } else if inTransaction {
        state, reason := Pinned, PinTransaction;
      } else if !autocommit {
        state, reason := Pinned, PinAutocommitOff;
      } else if |prepared| > 0 {
        state, reason := Pinned, PinPrepared;
      } else if userVariables {
        state, reason := Pinned, PinUserVariable;
      } else if temporaryState {
        state, reason := Pinned, PinTemporary;
      } else if lockRisk {
        state, reason := Pinned, PinLock;
      } else if settings != BaselineSettings(baseline) {
        state, reason := Replayable, PinNone;
      } else {
        state, reason := Multiplexable, PinNone;
      }
    }

    method Disconnect()
      modifies this
      ensures View() == Fresh(baseline)
    {
      Reset();
    }
  }
}
