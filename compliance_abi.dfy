/**
 * The two static tuples the compliance program exchanges, and their ABI
 * encodings (the host in apps/src/main.rs encodes both; the guest in
 * guests/compliance/src/main.rs decodes the input and encodes the journal):
 *   - input   `(address user, bytes32 productId, bool kycPassed, bool amlPassed)`, four head words;
 *   - journal `(address user, bytes32 productId, bool allowed)`, three head words.
 * A static tuple is the concatenation of its elements' head words.
 */
module ComplianceAbi {

  import opened Wrappers
  import opened AbiWords

  const INPUT_SIZE: nat := 4 * WORD_SIZE
  const JOURNAL_SIZE: nat := 3 * WORD_SIZE

  /** `type Input = (Address, B256, bool, bool)` */
  datatype Input = Input(user: Address, productId: B256, kycPassed: bool, amlPassed: bool)

  /** `type Output = (Address, B256, bool)`: the journal the guest commits. */
  datatype Journal = Journal(user: Address, productId: B256, allowed: bool)

  /** The i-th head word of `b`. */
  function WordAt(b: seq<Byte>, i: nat): (w: Word)
    requires (i + 1) * WORD_SIZE <= |b|
  {
    b[i * WORD_SIZE .. (i + 1) * WORD_SIZE]
  }

  // ---------------------------------------------------------------------------
  // Input tuple

  /** `<Input>::abi_encode`: 128 bytes laid out word by word. */
  function EncodeInput(x: Input): (b: seq<Byte>)
    ensures |b| == INPUT_SIZE
    ensures b[..ADDRESS_PAD] == Zeros(ADDRESS_PAD) && b[ADDRESS_PAD..WORD_SIZE] == x.user
    ensures b[WORD_SIZE..2 * WORD_SIZE] == x.productId
    ensures IsBoolWord(b[2 * WORD_SIZE..3 * WORD_SIZE]) && (b[3 * WORD_SIZE - 1] == 1 <==> x.kycPassed)
    ensures IsBoolWord(b[3 * WORD_SIZE..]) && (b[4 * WORD_SIZE - 1] == 1 <==> x.amlPassed)
  {
    BoolWordLayout(x.kycPassed);
    BoolWordLayout(x.amlPassed);
    var b := AddressWord(x.user) + B256Word(x.productId) + BoolWord(x.kycPassed) + BoolWord(x.amlPassed);
    assert b[2 * WORD_SIZE..3 * WORD_SIZE] == BoolWord(x.kycPassed);
    assert b[3 * WORD_SIZE..] == BoolWord(x.amlPassed);
    b
  }

  /** `<Input>::abi_decode`: fails when the bytes are shorter than four words. */
  function DecodeInput(b: seq<Byte>): (r: Option<Input>)
    ensures |b| < INPUT_SIZE ==> r == None
  {
    if |b| < INPUT_SIZE then None
    else Some(Input(AddressOfWord(WordAt(b, 0)), B256OfWord(WordAt(b, 1)),
                    BoolOfWord(WordAt(b, 2)), BoolOfWord(WordAt(b, 3))))
  }

  lemma InputRoundTrip(x: Input)
    ensures DecodeInput(EncodeInput(x)) == Some(x)
  {
    var b := EncodeInput(x);
    assert WordAt(b, 0) == AddressWord(x.user);
    assert WordAt(b, 1) == B256Word(x.productId);
    assert WordAt(b, 2) == BoolWord(x.kycPassed);
    assert WordAt(b, 3) == BoolWord(x.amlPassed);
    AddressRoundTrip(x.user);
    BoolRoundTrip(x.kycPassed);
    BoolRoundTrip(x.amlPassed);
  }

  // ---------------------------------------------------------------------------
  // Journal tuple

  /** `<Output>::abi_encode`: 96 bytes laid out word by word. */
  function EncodeOutput(j: Journal): (b: seq<Byte>)
    ensures |b| == JOURNAL_SIZE
    ensures b[..ADDRESS_PAD] == Zeros(ADDRESS_PAD) && b[ADDRESS_PAD..WORD_SIZE] == j.user
    ensures b[WORD_SIZE..2 * WORD_SIZE] == j.productId
    ensures b[2 * WORD_SIZE..JOURNAL_SIZE - 1] == Zeros(WORD_SIZE - 1)
    ensures b[JOURNAL_SIZE - 1] == if j.allowed then 1 else 0
  {
    AddressWord(j.user) + B256Word(j.productId) + BoolWord(j.allowed)
  }

  /** `<Output>::abi_decode`: fails when the bytes are shorter than three words. */
  function DecodeOutput(b: seq<Byte>): (r: Option<Journal>)
    ensures |b| < JOURNAL_SIZE ==> r == None
  {
    if |b| < JOURNAL_SIZE then None
    else Some(Journal(AddressOfWord(WordAt(b, 0)), B256OfWord(WordAt(b, 1)), BoolOfWord(WordAt(b, 2))))
  }

  lemma OutputRoundTrip(j: Journal)
    ensures DecodeOutput(EncodeOutput(j)) == Some(j)
  {
    var b := EncodeOutput(j);
    assert WordAt(b, 0) == AddressWord(j.user);
    assert WordAt(b, 1) == B256Word(j.productId);
    assert WordAt(b, 2) == BoolWord(j.allowed);
    AddressRoundTrip(j.user);
    BoolRoundTrip(j.allowed);
  }

  /** Distinct journals never share their bytes. */
  lemma EncodeOutputInjective(j1: Journal, j2: Journal)
    requires EncodeOutput(j1) == EncodeOutput(j2)
    ensures j1 == j2
  {
    OutputRoundTrip(j1);
    OutputRoundTrip(j2);
  }

  /** Byte strings that are the encoding of some journal. */
  predicate IsCanonicalJournal(b: seq<Byte>)
  {
    |b| == JOURNAL_SIZE && IsAddressWord(WordAt(b, 0)) && IsBoolWord(WordAt(b, 2))
  }

  /**
   * Re-encoding what was decoded from a canonical journal gives back the very
   * same bytes, so the bytes a digest is taken of and the tuple read from them
   * determine each other.
   */
  lemma CanonicalJournalReencodes(b: seq<Byte>)
    requires IsCanonicalJournal(b)
    ensures DecodeOutput(b).Some? && EncodeOutput(DecodeOutput(b).value) == b
  {
    var j := DecodeOutput(b).value;
    AddressWordCanonical(WordAt(b, 0));
    BoolWordCanonical(WordAt(b, 2));
    assert b == WordAt(b, 0) + WordAt(b, 1) + WordAt(b, 2);
  }

  /** Every encoded journal is canonical. */
  lemma EncodedJournalIsCanonical(j: Journal)
    ensures IsCanonicalJournal(EncodeOutput(j))
  {
    CanonicalJournalIffEncoded(EncodeOutput(j));
  }

  /** The canonical journals are exactly the encodings of journals. */
  lemma CanonicalJournalIffEncoded(b: seq<Byte>)
    ensures IsCanonicalJournal(b) <==> exists j :: EncodeOutput(j) == b
  {
    if IsCanonicalJournal(b) {
      CanonicalJournalReencodes(b);
    }
    if j :| EncodeOutput(j) == b {
      assert WordAt(b, 0) == AddressWord(j.user);
      assert WordAt(b, 2) == BoolWord(j.allowed);
      AddressWordLayout(j.user);
      BoolWordLayout(j.allowed);
    }
  }
}
