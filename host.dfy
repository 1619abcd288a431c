/**
 * The values the host CLI (apps/src/main.rs) computes around the network
 * calls: the prover's stdin, the proof request, the journal it rebuilds on
 * its own, and the arguments of the `beforeTrade` call. Client construction,
 * request submission, polling and transaction broadcast are I/O and are not
 * modelled; the seal returned by the prover enters as a parameter.
 */
module ComplianceHost {

  import opened Wrappers
  import opened AbiWords
  import opened ComplianceAbi
  import opened ComplianceGuest

  const U32_LIMIT: nat := 0x1_0000_0000
  const U256_LIMIT: nat := 0x1_0000_0000_0000_0000_0000_0000_0000_0000_0000_0000_0000_0000_0000_0000_0000_0000

  type U32 = n: nat | n < U32_LIMIT
  type U256 = n: nat | n < U256_LIMIT

  /** The command-line arguments that reach the modelled values. */
  datatype Args = Args(
    number: U32,
    user: Address,
    productId: B256,
    kycPassed: bool,
    amlPassed: bool,
    programUrl: Option<string>)

  /** Where the prover fetches the guest program from. */
  datatype ProgramSource = ProgramUrl(url: string) | EmbeddedElf

  datatype ProofRequest = ProofRequest(program: ProgramSource, stdin: seq<Byte>)

  /** Arguments of `IComplianceHook.beforeTrade`, in call order. */
  datatype BeforeTradeCall = BeforeTradeCall(
    user: Address,
    productId: B256,
    amount: U256,
    journal: seq<Byte>,
    seal: seq<Byte>)

  /** The prover's stdin: the input tuple, ABI-encoded. */
  function InputBytes(args: Args): (stdin: seq<Byte>)
    ensures stdin == EncodeInput(Input(args.user, args.productId, args.kycPassed, args.amlPassed))
    ensures |stdin| == INPUT_SIZE
    ensures DecodeInput(stdin) == Some(Input(args.user, args.productId, args.kycPassed, args.amlPassed))
  {
    var input := Input(args.user, args.productId, args.kycPassed, args.amlPassed);
    InputRoundTrip(input);
    EncodeInput(input)
  }

  /** The request: the program from its URL if one was given, else the embedded ELF. */
  function BuildRequest(args: Args): (request: ProofRequest)
    ensures request.stdin == InputBytes(args)
    ensures request.program.ProgramUrl? <==> args.programUrl.Some?
    ensures request.program.ProgramUrl? ==> request.program.url == args.programUrl.value
  {
    match args.programUrl
    case Some(url) => ProofRequest(ProgramUrl(url), InputBytes(args))
    case None => ProofRequest(EmbeddedElf, InputBytes(args))
  }

  /** The journal the host rebuilds itself, with its own copy of the decision rule. */
  function HostJournal(args: Args): (journal: seq<Byte>)
    ensures |journal| == JOURNAL_SIZE && IsCanonicalJournal(journal)
    ensures DecodeOutput(journal) == Some(Journal(args.user, args.productId, args.kycPassed && args.amlPassed))
  {
    var allowed := args.kycPassed && args.amlPassed;
    var j := Journal(args.user, args.productId, allowed);
    OutputRoundTrip(j);
    EncodedJournalIsCanonical(j);
    EncodeOutput(j)
  }

  /** `U256::from(u32)`: widening keeps the value. */
  function U256From(n: U32): (r: U256)
    ensures r as int == n as int && r < U32_LIMIT
  {
    n
  }

  /** The `beforeTrade(user, productId, amount, journal, seal)` call the host sends. */
  function BeforeTrade(args: Args, seal: seq<Byte>): (call: BeforeTradeCall)
    ensures DecodeOutput(call.journal) == Some(Journal(call.user, call.productId, args.kycPassed && args.amlPassed))
    ensures call.user == args.user && call.productId == args.productId
    ensures call.amount == args.number && call.seal == seal
  {
    BeforeTradeCall(args.user, args.productId, U256From(args.number), HostJournal(args), seal)
  }

  // ---------------------------------------------------------------------------
  // Agreement between host and guest

  /** The journal the host rebuilds is byte for byte the one the guest commits on the host's stdin. */
  lemma HostJournalAgreesWithGuest(args: Args)
    ensures Guest(InputBytes(args)) == Some(HostJournal(args))
  {
    GuestOnEncodedInput(Input(args.user, args.productId, args.kycPassed, args.amlPassed));
  }

  /**
   * End to end: the request's stdin is the same whichever program source was
   * chosen, and the compliance guest run on it commits exactly the journal
   * passed to `beforeTrade`. That the program behind a given URL is the
   * compliance guest is not modelled.
   */
  lemma CallJournalIsCommittedJournal(args: Args, seal: seq<Byte>)
    ensures Guest(BuildRequest(args).stdin) == Some(BeforeTrade(args, seal).journal)
  {
    HostJournalAgreesWithGuest(args);
  }

  /** The stdin is the same bytes in the program-URL and the embedded-ELF branch. */
  lemma RequestStdinIgnoresProgramSource(args: Args, url: string)
    ensures BuildRequest(args.(programUrl := Some(url))).stdin == BuildRequest(args.(programUrl := None)).stdin
    ensures |BuildRequest(args).stdin| == INPUT_SIZE
  {
  }

  /** The trade amount is not bound into the journal: changing it leaves the journal as it was. */
  lemma JournalIgnoresAmount(args: Args, number: U32, seal: seq<Byte>)
    ensures BeforeTrade(args.(number := number), seal).journal == BeforeTrade(args, seal).journal
    ensures BuildRequest(args.(number := number)).stdin == BuildRequest(args).stdin
  {
  }
}
