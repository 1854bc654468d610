/**
 * The magic-bytes check at the start of a `.b91` file (src/ttk91/vm/mod.rs):
 * the first nine bytes must spell the same header line that the object-module
 * parser requires as its first line.
 */
module Header {
  import opened Wrappers
  import opened Words
  import B91Parser

  /** The ASCII bytes of `___b91___`. */
  const HEADER: seq<Byte> := [0x5f, 0x5f, 0x5f, 0x62, 0x39, 0x31, 0x5f, 0x5f, 0x5f]

  /**
   * `validate_header`: whether the first nine bytes are the header. None where
   * the source panics, because slicing `0..9` runs past a shorter input.
   */
  function ValidateHeader(input: seq<Byte>): (r: Option<bool>)
    ensures r.None? <==> |input| < 9
    ensures r == Some(true) ==> input == HEADER + input[9..]
  {
    if |input| < 9 then None
    else
      assert input == input[..9] + input[9..];
      Some(input[..9] == HEADER)
  }

  /** Any input that starts with the header passes, whatever follows it. */
  lemma {:induction false} HeaderAccepted(rest: seq<Byte>)
    ensures ValidateHeader(HEADER + rest) == Some(true)
  {
    assert (HEADER + rest)[..9] == HEADER;
  }

  /** A long enough input passes exactly when it begins with the nine header bytes. */
  lemma {:induction false} ValidateHeaderIff(input: seq<Byte>)
    requires |input| >= 9
    ensures ValidateHeader(input) == Some(true) <==> forall i :: 0 <= i < 9 ==> input[i] == HEADER[i]
  {
    if forall i :: 0 <= i < 9 ==> input[i] == HEADER[i] {
      assert input[..9] == HEADER;
    }
  }

  /** Bytes from index 9 on never change the verdict. */
  lemma {:induction false} TailIgnored(input: seq<Byte>, extra: seq<Byte>)
    requires |input| >= 9
    ensures ValidateHeader(input + extra) == ValidateHeader(input)
  {
    assert (input + extra)[..9] == input[..9];
  }

  /** The header bytes are the character codes of the parser's first-line token. */
  lemma HeaderIsParserToken()
    ensures |HEADER| == |B91Parser.TOKEN_HEADER|
    ensures forall i :: 0 <= i < |HEADER| ==> HEADER[i] == B91Parser.TOKEN_HEADER[i] as int
  {
  }
}
