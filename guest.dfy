/**
 * The compliance guest program (guests/compliance/src/main.rs): it reads its
 * whole stdin, decodes `(user, productId, kycPassed, amlPassed)`, decides
 * `allowed = kycPassed && amlPassed`, and commits the encoding of
 * `(user, productId, allowed)` as its journal.
 *
 * Reading stdin and committing the journal are the zkVM's I/O; here the
 * program is a function from the stdin bytes to the journal it commits, and
 * `None` stands for the panic of `expect("invalid compliance input")`, after
 * which nothing is committed.
 */
module ComplianceGuest {

  import opened Wrappers
  import opened AbiWords
  import opened ComplianceAbi

  function Guest(stdin: seq<Byte>): (journal: Option<seq<Byte>>)
    ensures journal.None? <==> DecodeInput(stdin).None?
    ensures |stdin| < INPUT_SIZE ==> journal == None
    ensures journal.Some? ==>
      var x := DecodeInput(stdin).value;
      && journal.value == EncodeOutput(Journal(x.user, x.productId, x.kycPassed && x.amlPassed))
      && IsCanonicalJournal(journal.value)
      && DecodeOutput(journal.value) == Some(Journal(x.user, x.productId, x.kycPassed && x.amlPassed))
  {
    match DecodeInput(stdin)
    case None => None
    case Some(Input(user, productId, kycPassed, amlPassed)) =>
      var allowed := kycPassed && amlPassed;
      var j := Journal(user, productId, allowed);
      OutputRoundTrip(j);
      EncodedJournalIsCanonical(j);
      Some(EncodeOutput(j))
  }

  /** On well-formed input the guest commits the encoded decision tuple. */
  lemma GuestOnEncodedInput(x: Input)
    ensures Guest(EncodeInput(x)) == Some(EncodeOutput(Journal(x.user, x.productId, x.kycPassed && x.amlPassed)))
  {
    InputRoundTrip(x);
  }

  /** The committed decision word ends in 1 exactly when both checks passed. */
  lemma GuestDecision(x: Input)
    ensures Guest(EncodeInput(x)).Some?
    ensures Guest(EncodeInput(x)).value[JOURNAL_SIZE - 1] == 1 <==> x.kycPassed && x.amlPassed
  {
    GuestOnEncodedInput(x);
  }

  /**
   * Only the two flags decide: two inputs that agree on them get the same
   * decision, whatever their user and product.
   */
  lemma DecisionIgnoresSubjects(s1: seq<Byte>, s2: seq<Byte>)
    requires Guest(s1).Some? && Guest(s2).Some?
    requires DecodeInput(s1).value.kycPassed == DecodeInput(s2).value.kycPassed
    requires DecodeInput(s1).value.amlPassed == DecodeInput(s2).value.amlPassed
    ensures Guest(s1).value[JOURNAL_SIZE - 1] == Guest(s2).value[JOURNAL_SIZE - 1]
    ensures DecodeOutput(Guest(s1).value).value.allowed == DecodeOutput(Guest(s2).value).value.allowed
  {
  }

  // ---------------------------------------------------------------------------
  // The two executor scenarios of guests/tests/compliance.rs

  /** `allows_when_kyc_and_aml_pass`: user 0x01.., product 0x02.., both checks pass. */
  lemma AllowsWhenKycAndAmlPass()
    ensures var user: Address := seq(20, _ => 1);
            var productId: B256 := seq(32, _ => 2);
            var journal := Guest(EncodeInput(Input(user, productId, true, true)));
            journal.Some? && DecodeOutput(journal.value) == Some(Journal(user, productId, true))
  {
    var user: Address := seq(20, _ => 1);
    var productId: B256 := seq(32, _ => 2);
    GuestOnEncodedInput(Input(user, productId, true, true));
    OutputRoundTrip(Journal(user, productId, true));
  }

  /** `rejects_when_kyc_or_aml_fail`: user 0x03.., product 0x04.., AML fails. */
  lemma RejectsWhenKycOrAmlFail()
    ensures var user: Address := seq(20, _ => 3);
            var productId: B256 := seq(32, _ => 4);
            var journal := Guest(EncodeInput(Input(user, productId, true, false)));
            journal.Some? && DecodeOutput(journal.value) == Some(Journal(user, productId, false))
  {
    var user: Address := seq(20, _ => 3);
    var productId: B256 := seq(32, _ => 4);
    GuestOnEncodedInput(Input(user, productId, true, false));
    OutputRoundTrip(Journal(user, productId, false));
  }
}
