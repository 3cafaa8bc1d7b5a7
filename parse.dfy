/** The per-file decision of src/walk.rs (`parse`): open, map and parse the
    file, then dispatch on the object kind and the query kind. `Ok(())` means
    the file satisfies the query; every other outcome is an error. */
module Parsing {
  import opened Wrappers
  import opened SymbolKinds
  import opened Containers
  import opened Demangling
  import opened Substring
  import opened Find

  const MalformedFatMessage: string := "Malformed Fat MachO"

  /** The message of the error returned for a file that was mapped but did not
      match, or could not be mapped. */
  function UnableToParse(file: Path): string
  {
    "Unable to parse " + file
  }

  /** Whether a parsed object satisfies the query: ELF by needed library or by
      dynamic symbol, PE by import, export or DLL, a thin Mach-O when both its
      tables could be read, a fat Mach-O when some architecture matches. */
  ghost predicate ObjectMatches(obj: Object, stype: SymbolType, name: string, dm: Demangler)
  {
    match obj
    case Elf(elf) =>
      if stype == Library then ElfLibraryMatches(elf.libraries, name)
      else ElfHasMatch(elf.dynsyms, elf.dynstrtab, stype, name, dm)
    case PE(pe) => PeHasMatch(pe, stype, name, dm)
    case Mach(Binary(macho)) => MachOMatches(macho, stype, name, dm)
    case Mach(Fat(arches)) => arches.Some? && FatHasMatch(arches.value, stype, name, dm)
    case Archive => false
    case Unknown(_) => false
  }

  /** The outcome of `parse` for a file in the given state. */
  ghost function ParseResult(
    file: Path, state: FileState, stype: SymbolType, name: string, dm: Demangler): Result<()>
  {
    match state
    case OpenFailed => Err(IO)
    case MapFailed => Err(Malformed(UnableToParse(file)))
    case Mapped(Err(e)) => Err(e)
    case Mapped(Ok(obj)) =>
      if obj.Archive? || obj.Unknown? then Err(BadMagic(0))
      else if obj == Mach(Fat(None)) then Err(Malformed(MalformedFatMessage))
      else if ObjectMatches(obj, stype, name, dm) then Ok(())
      else Err(Malformed(UnableToParse(file)))
  }

  method Parse(file: Path, state: FileState, stype: SymbolType, name: string, dm: Demangler)
    returns (r: Result<()>)
    ensures r == ParseResult(file, state, stype, name, dm)
  {
    match state {
      case OpenFailed =>
        return Err(IO);
      case MapFailed =>
      case Mapped(parsed) =>
        if parsed.Err? {
          return Err(parsed.error);
        }
        var found := false;
        match parsed.value {
          case Elf(elf) =>
            if stype == Library {
              found := FindElfLibrary(elf.libraries, name);
            } else {
              found := FindInElf(elf.dynsyms, elf.dynstrtab, stype, name, dm);
            }
          case PE(pe) =>
            found := FindInPe(pe, stype, name, dm);
          case Mach(Binary(macho)) =>
            found := FindInMachOBinary(macho, stype, name, dm);
          case Mach(Fat(arches)) =>
            if arches.None? {
              return Err(Malformed(MalformedFatMessage));
            }
            ghost var examined;
            found, examined := FindInFat(arches.value, stype, name, dm);
          case Archive =>
            return Err(BadMagic(0));
          case Unknown(_) =>
            return Err(BadMagic(0));
        }
        if found {
          return Ok(());
        }
    }
    return Err(Malformed(UnableToParse(file)));
  }

  // ---------------------------------------------------------------- properties

  /** `parse` succeeds exactly when the file was opened, mapped and parsed and
      the resulting object satisfies the query. */
  lemma ParseOkIffMatch(file: Path, state: FileState, stype: SymbolType, name: string, dm: Demangler)
    ensures ParseResult(file, state, stype, name, dm).Ok?
        <==> state.Mapped? && state.parsed.Ok? && ObjectMatches(state.parsed.value, stype, name, dm)
  {
  }

  /** The error an unmatched, recognised file yields, and the errors of the
      other failure points. */
  lemma ParseErrors(file: Path, state: FileState, stype: SymbolType, name: string, dm: Demangler)
    ensures state == OpenFailed ==> ParseResult(file, state, stype, name, dm) == Err(IO)
    ensures state == MapFailed ==> ParseResult(file, state, stype, name, dm) == Err(Malformed(UnableToParse(file)))
    ensures state.Mapped? && state.parsed.Ok? && (state.parsed.value.Archive? || state.parsed.value.Unknown?)
        ==> ParseResult(file, state, stype, name, dm) == Err(BadMagic(0))
    ensures state == Mapped(Ok(Mach(Fat(None))))
        ==> ParseResult(file, state, stype, name, dm) == Err(Malformed(MalformedFatMessage))
    ensures state.Mapped? && state.parsed.Err?
        ==> ParseResult(file, state, stype, name, dm) == Err(state.parsed.error)
    ensures state.Mapped? && state.parsed.Ok? && !state.parsed.value.Archive? && !state.parsed.value.Unknown?
        && state.parsed.value != Mach(Fat(None)) && !ObjectMatches(state.parsed.value, stype, name, dm)
        ==> ParseResult(file, state, stype, name, dm) == Err(Malformed(UnableToParse(file)))
  {
  }

  /** A thin Mach-O whose imports or exports cannot be read never matches, for
      any query kind, Library included. */
  lemma MachOBinaryNeedsBothTables(
    file: Path, macho: MachO, stype: SymbolType, name: string, dm: Demangler)
    requires macho.imports.None? || macho.exports.None?
    ensures ParseResult(file, Mapped(Ok(Mach(Binary(macho)))), stype, name, dm)
        == Err(Malformed(UnableToParse(file)))
  {
  }

  /** Once an architecture of a fat Mach-O matches, the file is accepted
      whatever the later architectures hold. */
  lemma FatFirstMatchDecides(
    file: Path, slices: seq<Option<MachO>>, k: nat, later: seq<Option<MachO>>,
    stype: SymbolType, name: string, dm: Demangler)
    requires k < |slices| && SliceMatches(slices[k], stype, name, dm)
    ensures ParseResult(file, Mapped(Ok(Mach(Fat(Some(slices[..k + 1] + later))))), stype, name, dm) == Ok(())
  {
    assert (slices[..k + 1] + later)[k] == slices[k];
  }

  /** For Import and Export queries only the normalised query name matters. */
  lemma QueryNameCongruence(
    file: Path, state: FileState, stype: SymbolType, name1: string, name2: string, dm: Demangler)
    requires stype != Library
    requires Demangle(dm, name1) == Demangle(dm, name2)
    ensures ParseResult(file, state, stype, name1, dm) == ParseResult(file, state, stype, name2, dm)
  {
  }

  /** Querying by a mangled name or by its demangled form gives the same
      outcome for Import and Export queries. */
  lemma MangledOrReadableQuery(
    file: Path, state: FileState, stype: SymbolType, mangled: string, readable: string, dm: Demangler)
    requires stype != Library
    requires dm(mangled) == Some(readable) && dm(readable).None?
    ensures ParseResult(file, state, stype, mangled, dm) == ParseResult(file, state, stype, readable, dm)
  {
    QueryNameCongruence(file, state, stype, mangled, readable, dm);
  }

  /** Library queries match by substring: if a file matches a Library query,
      it matches every contiguous part of that query too. */
  lemma {:induction false} LibraryQueryPart(
    file: Path, state: FileState, name: string, part: string, dm: Demangler)
    requires ParseResult(file, state, Library, name, dm).Ok?
    requires IsSubstring(name, part)
    ensures ParseResult(file, state, Library, part, dm).Ok?
  {
    var obj := state.parsed.value;
    match obj
    case Elf(elf) =>
      var i :| 0 <= i < |elf.libraries| && IsSubstring(elf.libraries[i], name);
      SubstringTransitive(elf.libraries[i], name, part);
    case PE(pe) =>
      var i :| 0 <= i < |pe.imports| && IsSubstring(pe.imports[i].dll, name);
      SubstringTransitive(pe.imports[i].dll, name, part);
    case Mach(Binary(macho)) =>
      var imports := macho.imports.value;
      var i :| 0 <= i < |imports| && IsSubstring(imports[i].dylib, name);
      SubstringTransitive(imports[i].dylib, name, part);
    case Mach(Fat(arches)) =>
      var slices := arches.value;
      var k :| 0 <= k < |slices| && SliceMatches(slices[k], Library, name, dm);
      var imports := slices[k].value.imports.value;
      var i :| 0 <= i < |imports| && IsSubstring(imports[i].dylib, name);
      SubstringTransitive(imports[i].dylib, name, part);
      assert SliceMatches(slices[k], Library, part, dm);
  }
}
