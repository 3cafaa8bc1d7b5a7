/** The scan of src/walk.rs (`walk`): for each entry the directory walker
    yields, run `parse` and keep the path when it succeeds. The walker's
    entries are an input sequence; an entry the walker could not read is
    `None` and, like `flatten` on the walker, is dropped. */
module Scan {
  import opened Wrappers
  import opened SymbolKinds
  import opened Containers
  import opened Demangling
  import opened Substring
  import opened Find
  import opened Parsing

  /** The file system: what opening, mapping and parsing each path gives. */
  type FileSystem = Path -> FileState

  /** What one walker entry contributes to the result. */
  ghost function Kept(
    entry: Option<Path>, fs: FileSystem, stype: SymbolType, name: string, dm: Demangler): seq<string>
  {
    if entry.Some? && ParseResult(entry.value, fs(entry.value), stype, name, dm).Ok?
    then [entry.value] else []
  }

  /** The paths of the entries for which `parse` succeeds, in walker order. */
  ghost function Collected(
    entries: seq<Option<Path>>, fs: FileSystem, stype: SymbolType, name: string, dm: Demangler): seq<string>
    decreases |entries|
  {
    if entries == [] then []
    else Collected(entries[..|entries| - 1], fs, stype, name, dm) + Kept(entries[|entries| - 1], fs, stype, name, dm)
  }

  method Walk(
    entries: seq<Option<Path>>, fs: FileSystem, stype: SymbolType, name: string, dm: Demangler)
    returns (retvec: seq<string>)
    ensures retvec == Collected(entries, fs, stype, name, dm)
  {
    retvec := [];
    for i := 0 to |entries|
      invariant retvec == Collected(entries[..i], fs, stype, name, dm)
    {
      assert entries[..i + 1][..i] == entries[..i];
      match entries[i] {
        case Some(path) =>
          var r := Parse(path, fs(path), stype, name, dm);
          if r.Ok? {
            retvec := retvec + [path];
          }
        case None =>
      }
    }
    assert entries[..|entries|] == entries;
  }

  // ---------------------------------------------------------------- properties

  /** The scan is entry by entry: the result for a concatenation of walks is
      the concatenation of their results, so a failing file neither stops the
      scan nor disturbs the order of the others. */
  lemma {:induction false} CollectedAppend(
    first: seq<Option<Path>>, second: seq<Option<Path>>,
    fs: FileSystem, stype: SymbolType, name: string, dm: Demangler)
    ensures Collected(first + second, fs, stype, name, dm)
        == Collected(first, fs, stype, name, dm) + Collected(second, fs, stype, name, dm)
    decreases |second|
  {
    if second == [] {
      assert first + second == first;
    } else {
      var init, last := second[..|second| - 1], second[|second| - 1];
      var whole := first + second;
      assert whole[..|whole| - 1] == first + init && whole[|whole| - 1] == last;
      calc {
        Collected(whole, fs, stype, name, dm);
        Collected(first + init, fs, stype, name, dm) + Kept(last, fs, stype, name, dm);
        { CollectedAppend(first, init, fs, stype, name, dm); }
        Collected(first, fs, stype, name, dm) + Collected(init, fs, stype, name, dm) + Kept(last, fs, stype, name, dm);
        Collected(first, fs, stype, name, dm) + Collected(second, fs, stype, name, dm);
      }
    }
  }

  /** A path is in the result exactly when the walker yielded it and `parse`
      succeeds on it. */
  lemma {:induction false} CollectedMembership(
    entries: seq<Option<Path>>, path: Path,
    fs: FileSystem, stype: SymbolType, name: string, dm: Demangler)
    ensures path in Collected(entries, fs, stype, name, dm)
        <==> (exists i :: 0 <= i < |entries| && entries[i] == Some(path))
             && ParseResult(path, fs(path), stype, name, dm).Ok?
    decreases |entries|
  {
    if entries != [] {
      var init := entries[..|entries| - 1];
      CollectedMembership(init, path, fs, stype, name, dm);
      if exists i :: 0 <= i < |entries| && entries[i] == Some(path) {
        var i :| 0 <= i < |entries| && entries[i] == Some(path);
        if i < |init| {
          assert init[i] == Some(path);
        }
      }
      if exists i :: 0 <= i < |init| && init[i] == Some(path) {
        var i :| 0 <= i < |init| && init[i] == Some(path);
        assert entries[i] == Some(path);
      }
    }
  }

  /** At most one result per walker entry. */
  lemma {:induction false} CollectedLength(
    entries: seq<Option<Path>>, fs: FileSystem, stype: SymbolType, name: string, dm: Demangler)
    ensures |Collected(entries, fs, stype, name, dm)| <= |entries|
    decreases |entries|
  {
    if entries != [] {
      CollectedLength(entries[..|entries| - 1], fs, stype, name, dm);
    }
  }

  // ---------------------------------------------------------------- example

  /** A directory holding an ELF library that exports `foo` and links against
      libc, and a PE program that imports `bar` from user32.dll. */
  const ElfPath: Path := "lib/libfoo.so"
  const PePath: Path := "bin/app.exe"

  const FooLibrary: Object :=
    Elf(ElfObject([ElfSym(1, 12)], map[1 := "foo"], ["libc.so.6"]))
  const BarProgram: Object :=
    PE(PeObject([PeImport("bar", "user32.dll")], []))

  function ExampleFiles(path: Path): FileState
  {
    if path == ElfPath then Mapped(Ok(FooLibrary))
    else if path == PePath then Mapped(Ok(BarProgram))
    else OpenFailed
  }

  /** A demangler for which no name is mangled. */
  function NoDemangling(symname: string): Option<string>
  {
    None
  }

  /** The example directory, as the walker yields it. */
  const ExampleEntries: seq<Option<Path>> := [Some(ElfPath), Some(PePath)]

  lemma ExampleCollected(stype: SymbolType, name: string)
    ensures Collected(ExampleEntries, ExampleFiles, stype, name, NoDemangling)
         == Kept(Some(ElfPath), ExampleFiles, stype, name, NoDemangling)
          + Kept(Some(PePath), ExampleFiles, stype, name, NoDemangling)
  {
    var first := ExampleEntries[..1];
    assert first == [Some(ElfPath)] && first[..0] == [];
    assert Collected(first[..0], ExampleFiles, stype, name, NoDemangling) == [];
    assert Collected(first, ExampleFiles, stype, name, NoDemangling)
        == Kept(Some(ElfPath), ExampleFiles, stype, name, NoDemangling);
  }

  /** Querying the export `foo` finds only the ELF library. */
  lemma ExampleExportQuery()
    ensures Collected(ExampleEntries, ExampleFiles, Export, "foo", NoDemangling) == [ElfPath]
  {
    ExampleCollected(Export, "foo");
    var elf := FooLibrary.elf;
    assert ElfSymbolMatches(elf.dynsyms[0], elf.dynstrtab, Export, "foo", NoDemangling);
  }

  /** Querying the import `bar` finds only the PE program. */
  lemma ExampleImportQuery()
    ensures Collected(ExampleEntries, ExampleFiles, Import, "bar", NoDemangling) == [PePath]
  {
    ExampleCollected(Import, "bar");
    var pe := BarProgram.pe;
    assert NamesMatch(NoDemangling, pe.imports[0].name, "bar");
  }

  /** "user32" is not part of "libc.so.6". */
  lemma LibcLacksUser32()
    ensures !IsSubstring("libc.so.6", "user32")
  {
    var libc := "libc.so.6";
    assert libc[..6][0] != "user32"[0];
    assert libc[1..][..6][0] != "user32"[0];
    assert libc[2..][..6][0] != "user32"[0];
    assert libc[3..][..6][0] != "user32"[0];
    assert !Contains(libc[1..][1..][1..][1..], "user32");
    assert !Contains(libc, "user32");
  }

  /** Querying the library `user32` finds the PE program through its DLL. */
  lemma ExampleLibraryQuery()
    ensures Collected(ExampleEntries, ExampleFiles, Library, "user32", NoDemangling) == [PePath]
  {
    ExampleCollected(Library, "user32");
    assert Contains(BarProgram.pe.imports[0].dll, "user32");
    assert ObjectMatches(BarProgram, Library, "user32", NoDemangling);
    LibcLacksUser32();
    assert !ObjectMatches(FooLibrary, Library, "user32", NoDemangling);
  }
}
