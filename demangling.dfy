/** Name normalisation (`demangle` and `demangle_compare!` in src/walk.rs). */
module Demangling {
  import opened Wrappers

  /** The C++ (Itanium ABI) demangler: building a symbol from the name and
      rendering it. `None` when either step fails. Its rules are not modelled. */
  type Demangler = string -> Option<string>

  /** The demangled form of a name, or the name itself when it does not demangle. */
  function Demangle(dm: Demangler, symname: string): string
  {
    match dm(symname)
    case Some(demangled) => demangled
    case None => symname
  }

  /** Two names match when their normalised forms are equal. */
  predicate NamesMatch(dm: Demangler, left: string, right: string)
  {
    Demangle(dm, left) == Demangle(dm, right)
  }

  lemma DemangleFallsBack(dm: Demangler, symname: string)
    requires dm(symname).None?
    ensures Demangle(dm, symname) == symname
  {
  }

  lemma DemangleUsesDemangled(dm: Demangler, symname: string)
    requires dm(symname).Some?
    ensures Demangle(dm, symname) == dm(symname).value
  {
  }

  /** Names that do not demangle are compared literally. */
  lemma PlainNamesCompareLiterally(dm: Demangler, left: string, right: string)
    requires dm(left).None? && dm(right).None?
    ensures NamesMatch(dm, left, right) <==> left == right
  {
  }

  /** Matching is an equivalence relation, whatever the demangler does. */
  lemma NamesMatchIsEquivalence(dm: Demangler, a: string, b: string, c: string)
    ensures NamesMatch(dm, a, a)
    ensures NamesMatch(dm, a, b) <==> NamesMatch(dm, b, a)
    ensures NamesMatch(dm, a, b) && NamesMatch(dm, b, c) ==> NamesMatch(dm, a, c)
  {
  }

  /** A mangled name and its readable form match the same names, provided the
      readable form does not itself demangle further. */
  lemma MangledAndReadableAgree(dm: Demangler, mangled: string, readable: string, other: string)
    requires dm(mangled) == Some(readable) && dm(readable).None?
    ensures NamesMatch(dm, other, mangled) <==> NamesMatch(dm, other, readable)
  {
  }
}
