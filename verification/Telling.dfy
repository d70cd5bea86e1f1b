/**
 One key between registry and log while commands on it overlap: what the registry has, what the log tells, and
 which commands still have a region to come that changes one of the two.
 */
module Telling {
  import opened Basics
  import opened Retelling

  datatype KeyView = KeyView(
    reg: Option<Tale>,    // the key's slot
    told: Option<Tale>,   // what the log tells of the key
    sets: nat,            // SETs that have yet to log the slot then registered
    loud: nat,            // DELs that have yet to clear the registry, and will log
    quiet: nat,           // DELs that have yet to clear the registry, and will not log
    owed: nat)            // DELs that have only to log

  datatype Change = Stay | LogSlot | ForgetLoud | ForgetQuiet | LogDeletion

  predicate CanChange(v: KeyView, m: Change) {
    match m
    case Stay => true
    case LogSlot => v.sets > 0
    case ForgetLoud => v.loud > 0
    case ForgetQuiet => v.quiet > 0
    case LogDeletion => v.owed > 0
  }

  /** The log would tell of the deletion of a key it does not have. */
  predicate Contradicts(v: KeyView, m: Change) { m.LogDeletion? && v.told.None? }

  function Changed(v: KeyView, m: Change): KeyView
    requires CanChange(v, m)
  {
    match m
    case Stay => v
    case LogSlot => v.(told := if v.reg.Some? then Some(v.reg.value.(fate := Alive)) else v.told, sets := v.sets - 1)
    case ForgetLoud => v.(reg := None, loud := v.loud - 1, owed := v.owed + 1)
    case ForgetQuiet => v.(reg := None, quiet := v.quiet - 1)
    case LogDeletion => v.(told := None, owed := v.owed - 1)
  }

  predicate Done(v: KeyView) { v.sets == 0 && v.loud == 0 && v.quiet == 0 && v.owed == 0 }

  /** As many deletions will be logged as the log has to delete. */
  predicate Settles(v: KeyView) { v.loud + v.owed == if v.told.Some? then 1 else 0 }

  /**
   However what is under way goes on, it ends with the log telling the registry. With the slot gone or to go without a
   SET left, exactly the deletions that are due must come; with the slot to stay, no deletion, and an alive slot or
   the right tale; with both a SET and a DEL to go on, one loud DEL of a key the log has.
   */
  predicate Safe(v: KeyView) {
    if v.reg.None? then Settles(v)
    else if v.loud + v.quiet == 0 then v.owed == 0 && if v.sets > 0 then v.reg.value.fate.Alive? else v.told == v.reg
    else if v.sets == 0 then Settles(v)
    else v.told.Some? && v.loud == 1 && v.owed == 0
  }

  lemma DoneIsSafe(v: KeyView)
    requires Done(v)
    ensures Safe(v) <==> v.told == v.reg
  {
  }

  lemma SafeGoesOn(v: KeyView, m: Change)
    requires Safe(v) && CanChange(v, m)
    ensures !Contradicts(v, m) && Safe(Changed(v, m))
  {
  }

  /** From a moment that is not safe some next region leads to another such, or to a contradiction. */
  predicate Spoils(v: KeyView, m: Change) { CanChange(v, m) && !m.Stay? && (Contradicts(v, m) || !Safe(Changed(v, m))) }

  lemma UnsafeGoesOn(v: KeyView) returns (m: Change)
    requires !Safe(v) && !Done(v)
    ensures Spoils(v, m)
  {
    if v.reg.None? || v.sets == 0 {
      m := if v.sets > 0 then LogSlot else if v.quiet > 0 then ForgetQuiet
           else if v.loud > 0 then ForgetLoud else LogDeletion;
    } else if v.loud + v.quiet == 0 {
      m := LogSlot;
    } else if !Settles(v) {
      m := if v.quiet > 0 then ForgetQuiet else ForgetLoud;
      if v.told.None? && v.loud + v.owed == 0 { m := LogSlot; }
    } else {
      m := if v.owed > 0 then LogDeletion else LogSlot;
    }
  }

  // ── Commands that start ───────────────────────────────────────────

  /** A SET may start: no deletion is owed, and a DEL under way is the one loud DEL of a key the log has. */
  predicate MaySet(v: KeyView) {
    v.owed == 0 && (v.loud + v.quiet == 0 || (v.loud == 1 && v.told.Some?))
  }

  lemma SetStarts(v: KeyView, tale: Tale)
    requires Safe(v) && tale.fate.Alive?
    ensures Safe(v.(reg := Some(tale), sets := v.sets + 1)) <==> MaySet(v)
  {
  }

  /**
   A DEL may start: if the engine had the key, the log has it too and no other deletion is to be logged; if not, there is
   no slot to lose silently, or a DEL under way takes it anyway.
   */
  predicate MayDelete(v: KeyView, deleted: bool) {
    if deleted then v.told.Some? && v.loud + v.owed == 0 else v.reg.None? || v.loud + v.quiet > 0
  }

  lemma DeleteStarts(v: KeyView, deleted: bool)
    requires Safe(v)
    ensures Safe(if deleted then v.(loud := v.loud + 1) else v.(quiet := v.quiet + 1)) <==> MayDelete(v, deleted)
  {
  }

  /**
   A slot may be revoked or superseded, its fate then being `fate` and `read` what the log makes of the event: the log has
   the key alive and makes something of it, and the slot goes anyway or no SET is under way and the log makes the same.
   */
  predicate MayMove(v: KeyView, fate: Fate, read: Option<Fate>) {
    && v.told.Some? && v.told.value.fate.Alive? && read.Some?
    && (v.loud + v.quiet > 0 || (v.sets == 0 && read.value == fate))
  }

  lemma MoveStarts(v: KeyView, fate: Fate, read: Fate)
    requires Safe(v) && v.reg.Some? && v.reg.value.fate.Alive? && !fate.Alive?
    requires v.told.Some? && v.told.value.fate.Alive?
    ensures Safe(v.(reg := Some(v.reg.value.(fate := fate)), told := Some(v.told.value.(fate := read)))) <==>
            MayMove(v, fate, Some(read))
  {
  }
}
