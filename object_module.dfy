/** The loader's output (src/b91/mod.rs): a code block, a data block and a symbol table. */
module ObjectModules {
  import opened Words

  /** `start` and `end` are inclusive memory offsets of the block. */
  datatype CodeBlock = CodeBlock(start: USize, end: USize, instructions: seq<Word>)

  datatype DataBlock = DataBlock(start: USize, end: USize, data: seq<Word>)

  /** Symbol name to memory address. */
  type SymbolTable = map<string, USize>

  datatype ObjectModule = ObjectModule(code: CodeBlock, data: DataBlock, symbolTable: SymbolTable)
}
