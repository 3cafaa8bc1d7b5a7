# ief symbol matching engine, modelled in Dafny

ief scans a directory tree for binaries that import a symbol, export a symbol,
or link against a library. Its core is in `src/walk.rs`. Given one candidate
file and a query, it decides whether the file matches. A query is a symbol kind
(`Import`, `Export` or `Library`) plus a name. The engine handles ELF, PE and
Mach-O files, thin and fat.

This project models that engine and proves what it decides:

- `symbol_kinds.dfy`: the query kind (`SymbolType`).
- `containers.dfy`: what the object-file parsers produce for one file, reduced
  to the fields the engine reads. Each parser call that can fail is an
  `Option`/`Result` field.
- `demangling.dfy`: `demangle` and `demangle_compare!`. The demangler is a
  parameter, `string -> Option<string>`. It gives `None` when building the
  symbol or rendering it fails.
- `substring.dfy`: contiguous containment (`str::contains`), proved against an
  existential definition.
- `find.dfy`: `find_in_elf`, `find_in_macho`, and the loops `parse` runs over
  ELF libraries, PE imports and exports, and fat Mach-O architectures. Each is a
  method whose loop invariants tie its result to an existential predicate.
- `parse.dfy`: `parse`, proved equal to the function `ParseResult`, with the
  properties of that function.
- `scan.dfy`: `walk`, proved equal to the in-order filter `Collected`, with its
  properties and an end-to-end example.

Things supplied from outside, as parameters or inputs:

- The demangler (`Demangler`).
- What opening, mapping and parsing each path gives (`FileSystem`, a function
  from path to `FileState`).
- The walker's entries, as a sequence. An entry the walker could not read is
  `None`.

Behaviour of the code that a reader might not expect, which the model follows:

- A fat Mach-O architecture that cannot be fetched, or whose imports or exports
  cannot be read, is skipped. It does not abort the file. Only a failure to read
  the architecture table gives `Malformed("Malformed Fat MachO")`.
- An ELF symbol whose name offset does not resolve in the string table is
  skipped. It is not reported as corrupt.
- A map failure gives `Malformed("Unable to parse <path>")`, not an I/O error.
  Only an open failure gives `IO`.
- Every object kind other than ELF, PE and Mach-O gives `BadMagic(0)`, whatever
  its magic.

## Model

| member | source | states |
|---|---|---|
| `Demangling.DemangleFallsBack` | src/walk.rs:27-35 | a name that does not demangle normalises to itself |
| `Demangling.DemangleUsesDemangled` | src/walk.rs:28-32 | a name that demangles normalises to its demangled form |
| `Demangling.PlainNamesCompareLiterally` | src/walk.rs:20-35 | when neither name demangles, matching is plain string equality |
| `Demangling.NamesMatchIsEquivalence` | src/walk.rs:20-25 | name matching is reflexive, symmetric and transitive for every demangler |
| `Demangling.MangledAndReadableAgree` | src/walk.rs:20-35 | a mangled name and its readable form (which does not demangle further) match exactly the same names |
| `Substring.Contains` | src/walk.rs:113 | true iff the pattern occurs contiguously at some index of the string |
| `Substring.SubstringTransitive` | src/walk.rs:113 | a substring of a substring of a string is a substring of it |
| `Substring.EmptyPatternAlwaysOccurs` | src/walk.rs:113 | the empty pattern is contained in every string |
| `Substring.LibsslExample` | src/walk.rs:113 | "libssl.so.1.1" contains "libssl" but not "ssl.so.1.1.2" |
| `Find.FindInElf` | src/walk.rs:37-68 | true iff some dynamic symbol has the query's kind (undefined = import, defined = export), a name that resolves in the string table, and a name matching the query |
| `Find.FindElfLibrary` | src/walk.rs:111-117 | true iff some needed library contains the query name |
| `Find.FindInPe` | src/walk.rs:124-153 | true iff some import name (Import), some named export (Export) or some import's DLL by substring (Library) fits the query |
| `Find.FindInMacho` | src/walk.rs:70-100 | true iff some import name (Import), export name (Export), or import dylib path by substring (Library) fits the query |
| `Find.FindInMachOBinary` | src/walk.rs:155-163 | true iff both the imports and the exports could be read and they match the query |
| `Find.FindInFat` | src/walk.rs:164-179 | true iff some fetchable architecture with readable tables matches; on a match the matching architecture is the last one fetched and no earlier one matched; without a match every architecture was fetched |
| `Find.ElfSymbolKindRule` | src/walk.rs:44-65 | an undefined symbol never satisfies an Export query, a defined one never satisfies an Import query, and no symbol satisfies a Library query |
| `Find.ElfSymbolsNeverMatchLibrary` | src/walk.rs:37-68 | the ELF symbol search never reports a match for a Library query |
| `Find.ElfIgnoresInertSymbol` | src/walk.rs:43-67 | a symbol with an unresolvable name, or of the other kind, can be removed without changing the result |
| `Find.PeIgnoresUnnamedExport` | src/walk.rs:134-145 | a PE export without a name never changes the result |
| `Find.FatIgnoresBrokenSlice` | src/walk.rs:166-178 | an architecture that cannot be fetched, or has an unreadable table, never changes the result |
| `Parsing.Parse` | src/walk.rs:102-194 | the outcome equals `ParseResult`: IO on open failure, the parser's own error, BadMagic(0) for other object kinds, Malformed for a bad fat table, Ok exactly on a match, Malformed otherwise |
| `Parsing.ParseOkIffMatch` | src/walk.rs:102-194 | parse succeeds iff the file was opened, mapped and parsed and the object matches the query |
| `Parsing.ParseErrors` | src/walk.rs:103-193 | the error for each failure point: open, map, parser, unsupported kind, bad fat table, and a recognised file that does not match |
| `Parsing.MachOBinaryNeedsBothTables` | src/walk.rs:155-163 | a thin Mach-O whose imports or exports cannot be read matches no query, Library included |
| `Parsing.FatFirstMatchDecides` | src/walk.rs:164-178 | a fat Mach-O whose k-th architecture matches is accepted (`Ok`) whatever the architectures after it hold |
| `Parsing.QueryNameCongruence` | src/walk.rs:20-25 | for Import and Export queries, two query names with the same normalised form give the same outcome |
| `Parsing.MangledOrReadableQuery` | src/walk.rs:27-35 | querying by a mangled name or by its demangled form gives the same outcome |
| `Parsing.LibraryQueryPart` | src/walk.rs:111-152 | a file that matches a Library query also matches every contiguous part of the query name |
| `Scan.Walk` | src/walk.rs:196-205 | the result equals `Collected`: the paths of the readable entries for which parse succeeds, in walker order |
| `Scan.CollectedAppend` | src/walk.rs:199-203 | the result for two walks in a row is the first result followed by the second, so a failing file neither stops the scan nor reorders it |
| `Scan.CollectedMembership` | src/walk.rs:199-203 | a path is in the result iff the walker yielded it and parse succeeds on it |
| `Scan.CollectedLength` | src/walk.rs:199-203 | the result has at most one path per walker entry |
| `Scan.ExampleExportQuery` | src/walk.rs:102-205 | an ELF exporting foo and a PE importing bar: the Export query for foo yields only the ELF path |
| `Scan.ExampleImportQuery` | src/walk.rs:102-205 | the same directory: the Import query for bar yields only the PE path |
| `Scan.ExampleLibraryQuery` | src/walk.rs:102-205 | the same directory: the Library query for user32 yields the PE path, through user32.dll |

## Left out

- Byte-level parsing of ELF, PE and Mach-O is not modelled. Its results are
  inputs (`Object`, and the `Option` fields for the calls that can fail). This
  covers the string-table lookup, Mach-O `imports()`/`exports()`, and fat
  `arches()`/`get`.
- Itanium C++ demangling rules are not modelled. The demangler is an arbitrary
  function parameter.
- Opening and memory-mapping files, and the directory walk, are I/O. They are
  inputs: a function from path to `FileState`, and the sequence of walker
  entries. Which files the walker skips, and in what order it yields them, are
  not modelled.
- The payloads of I/O and low-level parser errors (the `io::Error` value inside
  `IO`, and the scroll error) are left out. Only the error kind is kept.
- Strings are sequences of characters. Rust's UTF-8 byte representation is not
  modelled; contiguous containment means the same on both.
- The command-line front end, the Binary Ninja plugin and its Python wrapper,
  and the build script are not part of this model. They are argument parsing,
  threads, foreign calls and output around `walk`.
