/**
 * Head words of the Solidity Contract ABI encoding ("Formal Specification of
 * the Encoding"): every static value occupies one 32-byte word.
 *   - `address`: 12 zero bytes, then its 20 bytes;
 *   - `bytes32`: the 32 bytes as they are;
 *   - `bool`:    31 zero bytes, then 0x00 or 0x01.
 */
module AbiWords {

  type Byte = bv8

  const WORD_SIZE: nat := 32
  const ADDRESS_SIZE: nat := 20
  /** Zero bytes in front of an address inside its word. */
  const ADDRESS_PAD: nat := WORD_SIZE - ADDRESS_SIZE

  type Word = s: seq<Byte> | |s| == WORD_SIZE witness seq(32, _ => 0)
  /** alloy's `Address`: exactly 20 bytes. */
  type Address = s: seq<Byte> | |s| == ADDRESS_SIZE witness seq(20, _ => 0)
  /** alloy's `B256`: exactly 32 bytes. */
  type B256 = Word

  function Zeros(n: nat): (z: seq<Byte>)
    ensures |z| == n
    ensures forall i :: 0 <= i < n ==> z[i] == 0
  {
    seq(n, _ => 0)
  }

  // ---------------------------------------------------------------------------
  // Encoding one value into its head word

  function AddressWord(a: Address): (w: Word)
  {
    Zeros(ADDRESS_PAD) + a
  }

  function B256Word(b: B256): (w: Word)
  {
    b
  }

  function BoolWord(b: bool): (w: Word)
  {
    Zeros(WORD_SIZE - 1) + [if b then 1 else 0]
  }

  // ---------------------------------------------------------------------------
  // Reading one value back from its head word.
  //
  // What a decoder does with a word that no encoder produces (non-zero
  // padding in front of an address, a bool word other than 0 or 1) is not
  // fixed by this model: the bodies below take the non-validating reading
  // (an address is the low 20 bytes, a bool is "the word is not zero"), and
  // no contract or lemma relies on that reading. Only canonical words, the
  // ones characterised below, are reasoned about.

  function AddressOfWord(w: Word): (a: Address)
  {
    w[ADDRESS_PAD..]
  }

  function B256OfWord(w: Word): (b: B256)
  {
    w
  }

  function BoolOfWord(w: Word): (b: bool)
  {
    w != Zeros(WORD_SIZE)
  }

  // ---------------------------------------------------------------------------
  // Canonical words: exactly the words the encoder can produce

  predicate IsAddressWord(w: Word)
  {
    forall i :: 0 <= i < ADDRESS_PAD ==> w[i] == 0
  }

  predicate IsBoolWord(w: Word)
  {
    (forall i :: 0 <= i < WORD_SIZE - 1 ==> w[i] == 0) && w[WORD_SIZE - 1] <= 1
  }

  /** Layout of an address word, and its canonical characterisation. */
  lemma AddressWordLayout(a: Address)
    ensures IsAddressWord(AddressWord(a))
    ensures AddressWord(a)[ADDRESS_PAD..] == a
  {
  }

  /** Layout of a bool word: 31 zero bytes, then 1 for true and 0 for false. */
  lemma BoolWordLayout(b: bool)
    ensures IsBoolWord(BoolWord(b))
    ensures BoolWord(b)[WORD_SIZE - 1] == 1 <==> b
  {
  }

  lemma AddressRoundTrip(a: Address)
    ensures AddressOfWord(AddressWord(a)) == a
  {
  }

  lemma BoolRoundTrip(b: bool)
    ensures BoolOfWord(BoolWord(b)) == b
  {
    if b {
      assert BoolWord(b)[WORD_SIZE - 1] != Zeros(WORD_SIZE)[WORD_SIZE - 1];
    }
  }

  /** A canonical address word is the encoding of the address read from it. */
  lemma AddressWordCanonical(w: Word)
    requires IsAddressWord(w)
    ensures AddressWord(AddressOfWord(w)) == w
  {
    assert forall i :: 0 <= i < WORD_SIZE ==> AddressWord(AddressOfWord(w))[i] == w[i];
  }

  /** A canonical bool word is the encoding of the bool read from it. */
  lemma BoolWordCanonical(w: Word)
    requires IsBoolWord(w)
    ensures BoolWord(BoolOfWord(w)) == w
  {
    if w[WORD_SIZE - 1] == 0 {
      assert w == Zeros(WORD_SIZE);
    } else {
      assert w[WORD_SIZE - 1] != Zeros(WORD_SIZE)[WORD_SIZE - 1];
      assert BoolWord(true) == w;
    }
  }
}
