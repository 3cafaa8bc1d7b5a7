/** The per-format searches of src/walk.rs: `find_in_elf`, `find_in_macho`, and
    the loops that `parse` runs over ELF libraries, PE imports and exports, and
    the architectures of a fat Mach-O. Each search is a method whose result is
    tied to an existential predicate: "some entry satisfies the query". */
module Find {
  import opened Wrappers
  import opened SymbolKinds
  import opened Containers
  import opened Demangling
  import opened Substring

  // ---------------------------------------------------------------- ELF

  /** The rule `find_in_elf` applies to one dynamic symbol: an undefined symbol
      counts as an import and any other as an export, its name must resolve in
      the string table, and that name must match the query. */
  ghost predicate ElfSymbolMatches(
    sym: ElfSym, strtab: map<nat, string>, stype: SymbolType, name: string, dm: Demangler)
  {
    && (if sym.stShndx == SHN_UNDEF then stype == Import else stype == Export)
    && sym.stName in strtab
    && NamesMatch(dm, strtab[sym.stName], name)
  }

  ghost predicate ElfHasMatch(
    syms: seq<ElfSym>, strtab: map<nat, string>, stype: SymbolType, name: string, dm: Demangler)
  {
    exists i :: 0 <= i < |syms| && ElfSymbolMatches(syms[i], strtab, stype, name, dm)
  }

  method FindInElf(
    dynsyms: seq<ElfSym>, dynstrtab: map<nat, string>, stype: SymbolType, name: string, dm: Demangler)
    returns (found: bool)
    ensures found <==> ElfHasMatch(dynsyms, dynstrtab, stype, name, dm)
  {
    for i := 0 to |dynsyms|
      invariant forall j :: 0 <= j < i ==> !ElfSymbolMatches(dynsyms[j], dynstrtab, stype, name, dm)
    {
      var sym := dynsyms[i];
      if sym.stShndx == SHN_UNDEF {
        if stype == Import && sym.stName in dynstrtab {
          if NamesMatch(dm, dynstrtab[sym.stName], name) {
            assert ElfSymbolMatches(dynsyms[i], dynstrtab, stype, name, dm);
            return true;
          }
        }
      } else {
        if stype == Export && sym.stName in dynstrtab {
          if NamesMatch(dm, dynstrtab[sym.stName], name) {
            assert ElfSymbolMatches(dynsyms[i], dynstrtab, stype, name, dm);
            return true;
          }
        }
      }
    }
    return false;
  }

  /** A Library query on an ELF object: some needed library contains the name. */
  ghost predicate ElfLibraryMatches(libraries: seq<string>, name: string)
  {
    exists i :: 0 <= i < |libraries| && IsSubstring(libraries[i], name)
  }

  method FindElfLibrary(libraries: seq<string>, name: string) returns (found: bool)
    ensures found <==> ElfLibraryMatches(libraries, name)
  {
    for i := 0 to |libraries|
      invariant forall j :: 0 <= j < i ==> !IsSubstring(libraries[j], name)
    {
      if Contains(libraries[i], name) {
        return true;
      }
    }
    return false;
  }

  // ---------------------------------------------------------------- PE

  ghost predicate PeExportMatches(exp: PeExport, name: string, dm: Demangler)
  {
    exp.name.Some? && NamesMatch(dm, exp.name.value, name)
  }

  /** The PE branch of `parse`: imports by name, exports by name (an export
      without a name is skipped), libraries by substring of the owning DLL. */
  ghost predicate PeHasMatch(pe: PeObject, stype: SymbolType, name: string, dm: Demangler)
  {
    match stype
    case Import => exists i :: 0 <= i < |pe.imports| && NamesMatch(dm, pe.imports[i].name, name)
    case Export => exists i :: 0 <= i < |pe.exports| && PeExportMatches(pe.exports[i], name, dm)
    case Library => exists i :: 0 <= i < |pe.imports| && IsSubstring(pe.imports[i].dll, name)
  }

  method FindInPe(pe: PeObject, stype: SymbolType, name: string, dm: Demangler)
    returns (found: bool)
    ensures found <==> PeHasMatch(pe, stype, name, dm)
  {
    match stype {
      case Import =>
        for i := 0 to |pe.imports|
          invariant forall j :: 0 <= j < i ==> !NamesMatch(dm, pe.imports[j].name, name)
        {
          if NamesMatch(dm, pe.imports[i].name, name) {
            return true;
          }
        }
      case Export =>
        for i := 0 to |pe.exports|
          invariant forall j :: 0 <= j < i ==> !PeExportMatches(pe.exports[j], name, dm)
        {
          match pe.exports[i].name
          case Some(exportName) =>
            if NamesMatch(dm, exportName, name) {
              assert PeExportMatches(pe.exports[i], name, dm);
              return true;
            }
          case None =>
        }
      case Library =>
        for i := 0 to |pe.imports|
          invariant forall j :: 0 <= j < i ==> !IsSubstring(pe.imports[j].dll, name)
        {
          if Contains(pe.imports[i].dll, name) {
            return true;
          }
        }
    }
    return false;
  }

  // ---------------------------------------------------------------- Mach-O

  /** `find_in_macho`: imports and exports by name, libraries by substring of
      an import's dylib path. */
  ghost predicate MachoHasMatch(
    imports: seq<MachImport>, exports: seq<MachExport>, stype: SymbolType, name: string, dm: Demangler)
  {
    match stype
    case Import => exists i :: 0 <= i < |imports| && NamesMatch(dm, imports[i].name, name)
    case Export => exists i :: 0 <= i < |exports| && NamesMatch(dm, exports[i].name, name)
    case Library => exists i :: 0 <= i < |imports| && IsSubstring(imports[i].dylib, name)
  }

  method FindInMacho(
    imports: seq<MachImport>, exports: seq<MachExport>, stype: SymbolType, name: string, dm: Demangler)
    returns (found: bool)
    ensures found <==> MachoHasMatch(imports, exports, stype, name, dm)
  {
    match stype {
      case Import =>
        for i := 0 to |imports|
          invariant forall j :: 0 <= j < i ==> !NamesMatch(dm, imports[j].name, name)
        {
          if NamesMatch(dm, imports[i].name, name) {
            return true;
          }
        }
      case Export =>
        for i := 0 to |exports|
          invariant forall j :: 0 <= j < i ==> !NamesMatch(dm, exports[j].name, name)
        {
          if NamesMatch(dm, exports[i].name, name) {
            return true;
          }
        }
      case Library =>
        for i := 0 to |imports|
          invariant forall j :: 0 <= j < i ==> !IsSubstring(imports[j].dylib, name)
        {
          if Contains(imports[i].dylib, name) {
            return true;
          }
        }
    }
    return false;
  }

  /** A thin Mach-O matches only when both its imports and its exports could be
      read, whatever the query kind. */
  ghost predicate MachOMatches(m: MachO, stype: SymbolType, name: string, dm: Demangler)
  {
    m.imports.Some? && m.exports.Some?
    && MachoHasMatch(m.imports.value, m.exports.value, stype, name, dm)
  }

  method FindInMachOBinary(m: MachO, stype: SymbolType, name: string, dm: Demangler)
    returns (found: bool)
    ensures found <==> MachOMatches(m, stype, name, dm)
  {
    found := false;
    if m.imports.Some? && m.exports.Some? {
      found := FindInMacho(m.imports.value, m.exports.value, stype, name, dm);
    }
  }

  /** One architecture of a fat Mach-O matches when its slice could be fetched
      and, as a thin Mach-O, matches. */
  ghost predicate SliceMatches(slice: Option<MachO>, stype: SymbolType, name: string, dm: Demangler)
  {
    slice.Some? && MachOMatches(slice.value, stype, name, dm)
  }

  ghost predicate FatHasMatch(
    slices: seq<Option<MachO>>, stype: SymbolType, name: string, dm: Demangler)
  {
    exists i :: 0 <= i < |slices| && SliceMatches(slices[i], stype, name, dm)
  }

  /** The fat Mach-O loop of `parse`. Architectures are tried in index order;
      `examined` counts the slices fetched: on a match, the matching slice is
      the last one fetched and no earlier slice matched. */
  method FindInFat(slices: seq<Option<MachO>>, stype: SymbolType, name: string, dm: Demangler)
    returns (found: bool, ghost examined: nat)
    ensures found <==> FatHasMatch(slices, stype, name, dm)
    ensures examined <= |slices|
    ensures found ==> 0 < examined && SliceMatches(slices[examined - 1], stype, name, dm)
    ensures found ==> forall j :: 0 <= j < examined - 1 ==> !SliceMatches(slices[j], stype, name, dm)
    ensures !found ==> examined == |slices|
  {
    examined := 0;
    for idx := 0 to |slices|
      invariant examined == idx
      invariant forall j :: 0 <= j < idx ==> !SliceMatches(slices[j], stype, name, dm)
    {
      examined := idx + 1;
      match slices[idx]
      case Some(container) =>
        var hit := FindInMachOBinary(container, stype, name, dm);
        if hit {
          return true, examined;
        }
      case None =>
    }
    return false, examined;
  }

  // ---------------------------------------------------------------- properties

  /** In an ELF object, an undefined symbol never satisfies an Export query, a
      defined one never satisfies an Import query, and no symbol satisfies a
      Library query. */
  lemma ElfSymbolKindRule(sym: ElfSym, strtab: map<nat, string>, stype: SymbolType, name: string, dm: Demangler)
    ensures sym.stShndx == SHN_UNDEF ==> !ElfSymbolMatches(sym, strtab, Export, name, dm)
    ensures sym.stShndx != SHN_UNDEF ==> !ElfSymbolMatches(sym, strtab, Import, name, dm)
    ensures !ElfSymbolMatches(sym, strtab, Library, name, dm)
  {
  }

  /** `find_in_elf` never reports a match for a Library query. */
  lemma ElfSymbolsNeverMatchLibrary(syms: seq<ElfSym>, strtab: map<nat, string>, name: string, dm: Demangler)
    ensures !ElfHasMatch(syms, strtab, Library, name, dm)
  {
  }

  /** An ELF symbol that cannot satisfy the query (its name does not resolve
      in the string table, or its section index gives the other kind) can be
      taken out of the table without changing whether the table matches. */
  lemma {:induction false} ElfIgnoresInertSymbol(
    before: seq<ElfSym>, sym: ElfSym, after: seq<ElfSym>,
    strtab: map<nat, string>, stype: SymbolType, name: string, dm: Demangler)
    requires || sym.stName !in strtab
             || (sym.stShndx == SHN_UNDEF && stype != Import)
             || (sym.stShndx != SHN_UNDEF && stype != Export)
    ensures ElfHasMatch(before + [sym] + after, strtab, stype, name, dm)
        <==> ElfHasMatch(before + after, strtab, stype, name, dm)
  {
    var whole, rest := before + [sym] + after, before + after;
    if ElfHasMatch(whole, strtab, stype, name, dm) {
      var i :| 0 <= i < |whole| && ElfSymbolMatches(whole[i], strtab, stype, name, dm);
      assert i != |before|;
      var k := if i < |before| then i else i - 1;
      assert rest[k] == whole[i];
    }
    if ElfHasMatch(rest, strtab, stype, name, dm) {
      var k :| 0 <= k < |rest| && ElfSymbolMatches(rest[k], strtab, stype, name, dm);
      var i := if k < |before| then k else k + 1;
      assert whole[i] == rest[k];
    }
  }

  /** A PE export without a name never causes a match. */
  lemma {:induction false} PeIgnoresUnnamedExport(
    imports: seq<PeImport>, before: seq<PeExport>, after: seq<PeExport>,
    stype: SymbolType, name: string, dm: Demangler)
    ensures PeHasMatch(PeObject(imports, before + [PeExport(None)] + after), stype, name, dm)
        <==> PeHasMatch(PeObject(imports, before + after), stype, name, dm)
  {
    var whole, rest := before + [PeExport(None)] + after, before + after;
    if stype == Export {
      if PeHasMatch(PeObject(imports, whole), stype, name, dm) {
        var i :| 0 <= i < |whole| && PeExportMatches(whole[i], name, dm);
        assert i != |before|;
        var k := if i < |before| then i else i - 1;
        assert rest[k] == whole[i];
      }
      if PeHasMatch(PeObject(imports, rest), stype, name, dm) {
        var k :| 0 <= k < |rest| && PeExportMatches(rest[k], name, dm);
        var i := if k < |before| then k else k + 1;
        assert whole[i] == rest[k];
      }
    }
  }

  /** An architecture of a fat Mach-O that cannot be fetched, or whose imports
      or exports cannot be read, is skipped: it never changes the outcome. */
  lemma {:induction false} FatIgnoresBrokenSlice(
    before: seq<Option<MachO>>, slice: Option<MachO>, after: seq<Option<MachO>>,
    stype: SymbolType, name: string, dm: Demangler)
    requires slice.None? || slice.value.imports.None? || slice.value.exports.None?
    ensures FatHasMatch(before + [slice] + after, stype, name, dm)
        <==> FatHasMatch(before + after, stype, name, dm)
  {
    var whole, rest := before + [slice] + after, before + after;
    if FatHasMatch(whole, stype, name, dm) {
      var i :| 0 <= i < |whole| && SliceMatches(whole[i], stype, name, dm);
      assert i != |before|;
      var k := if i < |before| then i else i - 1;
      assert rest[k] == whole[i];
    }
    if FatHasMatch(rest, stype, name, dm) {
      var k :| 0 <= k < |rest| && SliceMatches(rest[k], stype, name, dm);
      var i := if k < |before| then k else k + 1;
      assert whole[i] == rest[k];
    }
  }
}
