/** The length of information is one byte, and it is read as a signed character: what this means for
  information of more than 127 bytes, which the documentation allows. */
module DictLength {
  import opened DictPage

  const MAX_BYTE := 255

  /** The length that is read back of a stored one. */
  function SignedByte(n: nat): int
    requires n <= MAX_BYTE
  {
    if n < 128 then n else n - 256
  }

  /** The length that is read back is the one stored, up to 127 bytes only. */
  lemma LengthBack(n: nat)
    requires n <= MAX_BYTE
    ensures SignedByte(n) == n <==> n <= MAX_INFO
    ensures n > MAX_INFO ==> SignedByte(n) < 0
  {
  }

  // What becomes of the information of a key that is there: it was the same, it is overwritten in
  // place, or the entry moves to the end of the page and leaves its bytes unused.
  datatype Outcome = Same | InPlace | Moves

  /** The answer to an insertion: 2 when the information was the same, 1 when it changed. */
  function Answer(o: Outcome): int {
    if o.Same? then 2 else 1
  }

  function Meet(was: Info, info: Info): Outcome
    requires |was| <= MAX_BYTE && |info| <= MAX_BYTE
  {
    var length := SignedByte(|was|);
    if length == |info| then if was == info then Same else InPlace
    else if length > |info| then InPlace
    else Moves
  }

  /** Storing the same information again is answered with 2 up to 127 bytes only; a longer one moves,
      and is answered with 1, however often it is stored. */
  lemma StoredAgain(was: Info, info: Info)
    requires |was| <= MAX_BYTE && |info| <= MAX_BYTE
    ensures Answer(Meet(was, info)) == 2 <==> was == info && |info| <= MAX_INFO
    ensures Meet(was, info) == Moves <==> |was| > MAX_INFO || |info| > |was|
  {
    LengthBack(|was|);
  }

  /** How many bytes cleaning a page copies of the information of an entry and its length byte. */
  function CopiedBytes(info: Info): int
    requires |info| <= MAX_BYTE
  {
    SignedByte(|info|) + 1
  }

  /** Cleaning a page keeps the information of an entry up to 127 bytes only; beyond, the count it
      copies is not even positive, as for 200 bytes. */
  lemma CleaningKeeps(info: Info)
    requires |info| <= MAX_BYTE
    ensures CopiedBytes(info) == 1 + |info| <==> |info| <= MAX_INFO
    ensures |info| > MAX_INFO ==> CopiedBytes(info) <= 0
    ensures |info| == 200 ==> CopiedBytes(info) == -55
  {
    LengthBack(|info|);
  }
}
