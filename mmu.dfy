/**
 * The memory management unit (src/vm/mmu.rs): a fixed-size array of words with
 * bounds-checked reads and writes that record the last address in MAR and the
 * last value in MBR.
 *
 * `limit` is the size converted with `as u32`, so for a size of 2^32 words or
 * more the bounds check uses the truncated value while the array keeps its
 * full length.
 */
module Memory {
  import opened Wrappers
  import opened Words

  /** What an MMU holds: MAR, MBR, the limit and the words of the backing array. */
  datatype MmuState = MmuState(mar: Word, mbr: Word, limit: Word, cells: seq<Word>)

  /** The limit never exceeds the backing array's length. */
  type Mmu = m: MmuState | m.limit <= |m.cells| witness MmuState(0, 0, 0, [])

  /** `MMU::new(size)`. */
  function Fresh(size: USize): (m: Mmu)
    ensures |m.cells| == size && forall a :: 0 <= a < size ==> m.cells[a] == 0
    ensures m.mar == 0 && m.mbr == 0
    ensures size < WORD_MOD ==> m.limit == size
    ensures m.limit == TruncateToWord(size)
  {
    MmuState(0, 0, TruncateToWord(size), seq(size, _ => 0))
  }

  /** `MMU::read`: the value read (None where the source panics) and the new state. */
  function ReadSpec(m: Mmu, addr: USize): (Option<Word>, Mmu)
  {
    if addr < m.limit then (Some(m.cells[addr]), m.(mar := addr, mbr := m.cells[addr]))
    else (None, m)
  }

  /** `MMU::write`: whether it succeeded and the new state. */
  function WriteSpec(m: Mmu, addr: USize, value: Word): (bool, Mmu)
  {
    if addr < m.limit then (true, m.(mar := addr, mbr := value, cells := m.cells[addr := value]))
    else (false, m)
  }

  /**
   * `slice[start..stop].copy_from_slice(words)` on the backing array: fails where
   * slicing panics (`start > stop`, `stop` past the array) or the lengths differ.
   */
  function SliceCopy(cells: seq<Word>, start: USize, stop: USize, words: seq<Word>): (r: Option<seq<Word>>)
    ensures r.Some? <==> start <= stop <= |cells| && stop - start == |words|
    ensures r.Some? ==> |r.value| == |cells| && r.value[start..stop] == words
    ensures r.Some? ==> forall a :: 0 <= a < |cells| && !(start <= a < stop) ==> r.value[a] == cells[a]
  {
    if start <= stop <= |cells| && stop - start == |words| then
      var r := cells[..start] + words + cells[stop..];
      assert r[start..stop] == words;
      Some(r)
    else
      None
  }

  /** An in-bounds read returns the stored word, loads MAR and MBR, and leaves memory alone. */
  lemma ReadInBounds(m: Mmu, addr: USize)
    requires addr < m.limit
    ensures ReadSpec(m, addr).0 == Some(m.cells[addr])
    ensures ReadSpec(m, addr).1 == m.(mar := addr, mbr := m.cells[addr])
  {
  }

  /** An in-bounds write stores the word and loads MAR and MBR; every other cell keeps its value. */
  lemma WriteInBounds(m: Mmu, addr: USize, value: Word)
    requires addr < m.limit
    ensures WriteSpec(m, addr, value).0
    ensures var m' := WriteSpec(m, addr, value).1;
      m'.cells[addr] == value && m'.mar == addr && m'.mbr == value
      && forall b :: 0 <= b < |m.cells| && b != addr ==> m'.cells[b] == m.cells[b]
  {
  }

  /** A write followed by a read of the same address returns the written word. */
  lemma ReadAfterWrite(m: Mmu, addr: USize, value: Word)
    requires addr < m.limit
    ensures ReadSpec(WriteSpec(m, addr, value).1, addr).0 == Some(value)
  {
  }

  /** At or past the limit both operations fail and change nothing. */
  lemma OutOfBounds(m: Mmu, addr: USize, value: Word)
    requires addr >= m.limit
    ensures ReadSpec(m, addr) == (None, m)
    ensures WriteSpec(m, addr, value) == (false, m)
  {
  }

  /** Neither operation changes the limit or the size of the backing array. */
  lemma SizeFixed(m: Mmu, addr: USize, value: Word)
    ensures ReadSpec(m, addr).1.limit == m.limit && |ReadSpec(m, addr).1.cells| == |m.cells|
    ensures WriteSpec(m, addr, value).1.limit == m.limit && |WriteSpec(m, addr, value).1.cells| == |m.cells|
  {
  }

  class MMU {
    var mar: Word
    var mbr: Word
    const limit: Word
    const backing: array<Word>

    predicate Valid()
    {
      limit <= backing.Length
    }

    function View(): Mmu
      requires Valid()
      reads this, backing
    {
      MmuState(mar, mbr, limit, backing[..])
    }

    /** `MMU::new`. */
    constructor (size: USize)
      ensures Valid() && fresh(backing)
      ensures View() == Fresh(size)
    {
      backing := new Word[size](_ => 0);
      mar, mbr := 0, 0;
      limit := TruncateToWord(size);
    }

    /** `MMU::read`: None where the source panics. */
    method Read(addr: USize) returns (r: Option<Word>)
      requires Valid()
      modifies this
      ensures (r, View()) == ReadSpec(old(View()), addr)
    {
      if addr < limit {
        mar := addr;
        mbr := backing[addr];
        r := Some(mbr);
      } else {
        r := None;
      }
    }

    /** `MMU::write`: false where the source panics. */
    method Write(addr: USize, value: Word) returns (ok: bool)
      requires Valid()
      modifies this, backing
      ensures (ok, View()) == WriteSpec(old(View()), addr, value)
    {
      if addr < limit {
        mar := addr;
        mbr := value;
        backing[addr] := value;
        ok := true;
      } else {
        ok := false;
      }
    }

    /**
     * `as_slice()[start..stop].copy_from_slice(words)`: copies straight into the
     * backing array, past the bounds check and without touching MAR or MBR.
     */
    method CopyIntoSlice(start: USize, stop: USize, words: seq<Word>) returns (ok: bool)
      requires Valid()
      modifies backing
      ensures ok == SliceCopy(old(View()).cells, start, stop, words).Some?
      ensures View() == if ok then old(View()).(cells := SliceCopy(old(View()).cells, start, stop, words).value)
                        else old(View())
    {
      if !(start <= stop <= backing.Length && stop - start == |words|) {
        return false;
      }
      for k := 0 to |words|
        invariant forall a :: 0 <= a < backing.Length ==>
          backing[a] == if start <= a < start + k then words[a - start] else old(backing[a])
      {
        backing[start + k] := words[k];
      }
      ok := true;
      ghost var expected := SliceCopy(old(backing[..]), start, stop, words).value;
      assert forall a :: 0 <= a < backing.Length ==> backing[..][a] == expected[a];
      assert backing[..] == expected;
    }
  }
}
