/** The data the object-file parsers produce for one candidate file, reduced to
    the fields that the matching engine of src/walk.rs reads. The byte layouts
    of ELF, PE and Mach-O are not modelled: each parser call that can fail is an
    `Option` (or a `Result`) field holding what it yields. */
module Containers {
  import opened Wrappers

  type Path = string

  /** The parser library's error type, as far as the engine produces or
      forwards it. */
  datatype Error =
    | IO                    // the file could not be opened
    | BadMagic(magic: nat)  // not an object kind the engine handles
    | Malformed(msg: string)
    | Scroll                // a low-level read failure inside the parser

  datatype Result<+T> = Ok(value: T) | Err(error: Error)

  /** Section index of an undefined ELF symbol (SHN_UNDEF in the ELF symbol table). */
  const SHN_UNDEF: nat := 0

  /** One entry of the ELF dynamic symbol table. */
  datatype ElfSym = ElfSym(stName: nat, stShndx: nat)

  /** An ELF object: the dynamic symbol table, the dynamic string table as the
      offsets at which a lookup yields a name, and the needed libraries. */
  datatype ElfObject = ElfObject(
    dynsyms: seq<ElfSym>,
    dynstrtab: map<nat, string>,
    libraries: seq<string>)

  datatype PeImport = PeImport(name: string, dll: string)

  /** A PE export; an export by ordinal only has no name. */
  datatype PeExport = PeExport(name: Option<string>)

  datatype PeObject = PeObject(imports: seq<PeImport>, exports: seq<PeExport>)

  datatype MachImport = MachImport(name: string, dylib: string)

  datatype MachExport = MachExport(name: string)

  /** A thin Mach-O: what its `imports()` and `exports()` return, `None` when
      that call fails. */
  datatype MachO = MachO(
    imports: Option<seq<MachImport>>,
    exports: Option<seq<MachExport>>)

  /** A Mach-O file. For a fat one, `arches` is `None` when reading the
      architecture table fails, and otherwise holds, per architecture index,
      what fetching that architecture's slice returns. */
  datatype MachObject =
    | Binary(macho: MachO)
    | Fat(arches: Option<seq<Option<MachO>>>)

  /** The object kinds the parser recognises. */
  datatype Object =
    | Elf(elf: ElfObject)
    | PE(pe: PeObject)
    | Mach(mach: MachObject)
    | Archive
    | Unknown(magic: nat)

  /** What opening a path, mapping it into memory and parsing the mapped bytes
      give, in that order. */
  datatype FileState =
    | OpenFailed
    | MapFailed
    | Mapped(parsed: Result<Object>)
}
