/** The kind of a query (src/lib.rs): an imported symbol, an exported symbol,
    or a library the binary links against. */
module SymbolKinds {

  datatype SymbolType = Import | Export | Library
}
