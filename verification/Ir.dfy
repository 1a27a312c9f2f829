/**
 The instruction kinds of LLVM IR as far as grouping looks at them, and the three collapsability
 predicates. `assumeNonAtomic` is the generator's `_assumeNonAtomicCollapsable` flag (default false).
 */
module Ir {

  datatype Option<+T> = None | Some(value: T)

  /** The function names the predicates compare with; every other name is `Named`. */
  datatype FunctionName =
    | Malloc | PthreadCreate | PthreadJoin | LlmcosThreadNew | LlmcosThreadJoin
    | Named(name: string)

  /** What a call instruction calls. `Indirect` has no called function. */
  datatype Callee =
    | Intrinsic
    | InlineAsm
    | Indirect
    | Function(name: FunctionName, isDeclaration: bool)

  datatype Opcode =
    | Alloca | Load(atomic: bool) | Store(atomic: bool)
    | Ret | Br | Switch | IndirectBr | Invoke | Resume | Unreachable
    | CleanupRet | CatchRet | CatchSwitch | GetElementPtr
    | Fence | AtomicCmpXchg | AtomicRMW | CleanupPad | PHI
    | Call(callee: Callee)
    | VAArg | ExtractElement | InsertElement | ShuffleVector | ExtractValue | InsertValue
    | LandingPad
    | Other

  /** The part of the three switches that is the same in all of them. */
  predicate CollapsableNonCall(op: Opcode, assumeNonAtomic: bool) {
    match op
    case Load(atomic) => assumeNonAtomic && !atomic
    case Store(atomic) => assumeNonAtomic && !atomic
    case Invoke | Resume => false
    case CleanupRet | CatchRet | CatchSwitch => false
    case Fence | AtomicCmpXchg | AtomicRMW => false
    case LandingPad => false
    case _ => true
  }

  predicate FrontCollapsable(op: Opcode, assumeNonAtomic: bool) {
    match op
    case Call(Intrinsic) => true
    case Call(InlineAsm) => false
    case Call(Indirect) => false
    case Call(Function(name, isDeclaration)) => isDeclaration && (name == Malloc || name == PthreadJoin)
    case _ => CollapsableNonCall(op, assumeNonAtomic)
  }

  predicate BackCollapsable(op: Opcode, assumeNonAtomic: bool) {
    match op
    case Call(Intrinsic) => true
    case Call(InlineAsm) => false
    case Call(Indirect) => false
    case Call(Function(name, isDeclaration)) => isDeclaration && name == Malloc
    case _ => CollapsableNonCall(op, assumeNonAtomic)
  }

  predicate RuntimeCollapsable(op: Opcode, assumeNonAtomic: bool) {
    match op
    case Call(Intrinsic) => true
    case Call(InlineAsm) => false
    case Call(Indirect) => false
    case Call(Function(name, isDeclaration)) => isDeclaration ==> name == Malloc
    case _ => CollapsableNonCall(op, assumeNonAtomic)
  }

  /** The rule by which two calls to the same thread primitive could share a group. */
  predicate InstructionsCanCollapse(before: Opcode, after: Opcode) {
    && before.Call? && after.Call?
    && before.callee.Function? && after.callee.Function?
    && before.callee.name == after.callee.name
    && before.callee.name in {PthreadCreate, PthreadJoin, LlmcosThreadNew, LlmcosThreadJoin}
  }

  /**
   How the three predicates differ: front but not runtime is exactly pthread_join, runtime but not
   front is exactly a call to a function with a body, and back is front without pthread_join.
   */
  lemma PredicatesDiffer(op: Opcode, assumeNonAtomic: bool)
    ensures (FrontCollapsable(op, assumeNonAtomic) && !RuntimeCollapsable(op, assumeNonAtomic))
            <==> op == Call(Function(PthreadJoin, true))
    ensures (RuntimeCollapsable(op, assumeNonAtomic) && !FrontCollapsable(op, assumeNonAtomic))
            <==> op.Call? && op.callee.Function? && !op.callee.isDeclaration
    ensures BackCollapsable(op, assumeNonAtomic)
            <==> FrontCollapsable(op, assumeNonAtomic) && op != Call(Function(PthreadJoin, true))
  {
  }

  // ----- What has a step of its own -----

  /** A load or store that another thread could notice. */
  predicate Accesses(op: Opcode, assumeNonAtomic: bool) {
    (op.Load? || op.Store?) && (op.atomic || !assumeNonAtomic)
  }

  /** Atomic read-modify-writes and fences. */
  predicate Synchronises(op: Opcode) { op in {Fence, AtomicCmpXchg, AtomicRMW} }

  /** Exception handling, but for `CleanupPad`. */
  predicate Unwinds(op: Opcode) { op in {Invoke, Resume, CleanupRet, CatchRet, CatchSwitch, LandingPad} }

  /** Code outside the group runs, or may run. */
  predicate RunsOther(op: Opcode) {
    && op.Call? && op.callee != Intrinsic
    && op.callee != Function(Malloc, true) && op.callee != Function(PthreadJoin, true)
  }

  /**
   In front of a group's main instruction may stand exactly what neither accesses shared memory, synchronises,
   unwinds nor runs other code.
   */
  lemma FrontIff(op: Opcode, assumeNonAtomic: bool)
    ensures FrontCollapsable(op, assumeNonAtomic)
            <==> !Accesses(op, assumeNonAtomic) && !Synchronises(op) && !Unwinds(op) && !RunsOther(op)
  {
  }
}
