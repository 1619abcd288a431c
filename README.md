# Compliance journal: guest decision, ABI codec and host rebuild

A model of the off-chain half of a trade-compliance hook built on a zkVM.
A guest program reads the tuple `(user, productId, kycPassed, amlPassed)`.
It decides `allowed = kycPassed && amlPassed`.
It commits the tuple `(user, productId, allowed)` as its journal.
The host CLI encodes the same input for the prover.
It then rebuilds the journal on its own and passes it, with the prover's seal, to `beforeTrade`.
The hook is expected to check the seal against a digest of the journal bytes the host supplies.
That is why the guest's journal and the host's journal must be the same bytes.

Both tuples are static, so their Solidity Contract ABI encodings ("Formal Specification of the Encoding") are one 32-byte head word per element:
an `address` is 12 zero bytes then its 20 bytes, a `bytes32` is as it is, and a `bool` is 31 zero bytes then 0x00 or 0x01.

Modules:

- `Wrappers`: `Option`.
- `AbiWords`: bytes, words, `Address`, `B256`; the head word of each element type, reading it back, and the canonical words.
- `ComplianceAbi`: the input tuple (128 bytes) and the journal tuple (96 bytes), their encoders and decoders, round trips, injectivity, and the canonical journals.
- `ComplianceGuest`: the guest's `main` as a function from stdin bytes to the optional committed journal (`None` is the `expect` panic), and the two executor scenarios of the guest tests.
- `ComplianceHost`: the prover's stdin, the proof request, the host's own journal rebuild, the `beforeTrade` arguments, and the agreement between host and guest.

Reading stdin and committing the journal are the zkVM's I/O, so the guest is modelled as a pure function.
The host's seal, which comes back from the prover, is a parameter.

`beforeTrade` (`IComplianceHook.sol`) is not part of this model.
The trade amount is not part of the journal; see `ComplianceHost.JournalIgnoresAmount`.

## Model

| member | source | states |
|---|---|---|
| `AbiWords.AddressWordLayout` | guests/compliance/src/main.rs:33-34 | an address word is 12 zero bytes followed by the address |
| `AbiWords.BoolWordLayout` | guests/compliance/src/main.rs:33-34 | a bool word is 31 zero bytes and then 1 exactly for `true` |
| `AbiWords.AddressRoundTrip` | guests/compliance/src/main.rs:26-29 | reading the address back from its word gives the address |
| `AbiWords.BoolRoundTrip` | guests/compliance/src/main.rs:26-29 | reading the bool back from its word gives the bool |
| `AbiWords.AddressWordCanonical` | guests/compliance/src/main.rs:33-34 | a word with zero padding is the encoding of the address read from it |
| `AbiWords.BoolWordCanonical` | guests/compliance/src/main.rs:33-34 | a word of 31 zero bytes then 0 or 1 is the encoding of the bool read from it |
| `ComplianceAbi.EncodeInput` | apps/src/main.rs:97-99 | the input encoding is 128 bytes: padded user, product id, then two bool words whose last byte is 1 exactly when the flag holds |
| `ComplianceAbi.DecodeInput` | guests/compliance/src/main.rs:26-29 | decoding fails on input shorter than four words |
| `ComplianceAbi.InputRoundTrip` | guests/compliance/src/main.rs:26-29 | decoding an encoded input gives back the same four fields |
| `ComplianceAbi.EncodeOutput` | guests/compliance/src/main.rs:33-34 | the journal is 96 bytes: 12 zero bytes and the user, the product id, 31 zero bytes and 0/1 for the decision |
| `ComplianceAbi.DecodeOutput` | guests/tests/compliance.rs:40-41 | decoding fails on a journal shorter than three words |
| `ComplianceAbi.OutputRoundTrip` | guests/tests/compliance.rs:40-44 | decoding an encoded journal gives back the same user, product id and decision |
| `ComplianceAbi.EncodeOutputInjective` | guests/compliance/src/main.rs:33-34 | two journals with the same bytes are the same tuple |
| `ComplianceAbi.CanonicalJournalReencodes` | guests/compliance/src/main.rs:33-34 | a canonical 96-byte journal decodes, and re-encoding the decoded tuple gives back the same bytes |
| `ComplianceAbi.EncodedJournalIsCanonical` | guests/compliance/src/main.rs:33-34 | every encoded journal is canonical |
| `ComplianceAbi.CanonicalJournalIffEncoded` | guests/compliance/src/main.rs:33-34 | a byte string is canonical exactly when it is the encoding of some journal |
| `ComplianceGuest.Guest` | guests/compliance/src/main.rs:22-37 | the guest commits nothing exactly when decoding fails (so on input under 128 bytes); otherwise it commits exactly the encoding of the decoded user, the decoded product id and `kycPassed && amlPassed`, a canonical journal that decodes back to that tuple |
| `ComplianceGuest.GuestOnEncodedInput` | guests/compliance/src/main.rs:26-34 | on an encoded input the guest commits the encoding of `(user, productId, kycPassed && amlPassed)` |
| `ComplianceGuest.GuestDecision` | guests/compliance/src/main.rs:31 | the committed decision byte is 1 exactly when both checks passed |
| `ComplianceGuest.DecisionIgnoresSubjects` | guests/compliance/src/main.rs:31 | two inputs with the same flags get the same decision, whatever their user and product |
| `ComplianceGuest.AllowsWhenKycAndAmlPass` | guests/tests/compliance.rs:23-46 | user 0x01…, product 0x02…, both flags true: the journal decodes to that user, product and `true` |
| `ComplianceGuest.RejectsWhenKycOrAmlFail` | guests/tests/compliance.rs:48-71 | user 0x03…, product 0x04…, AML false: the journal decodes to that user, product and `false` |
| `ComplianceHost.InputBytes` | apps/src/main.rs:97-99 | the prover's stdin is exactly the input encoding of the arguments' user, product id and flags: 128 bytes that decode back to them |
| `ComplianceHost.BuildRequest` | apps/src/main.rs:101-112 | the request carries that stdin, and carries a program URL exactly when one was given, and then the URL given |
| `ComplianceHost.HostJournal` | apps/src/main.rs:122-125 | the host's journal is a canonical 96-byte journal that decodes to the user, the product id and `kycPassed && amlPassed` |
| `ComplianceHost.U256From` | apps/src/main.rs:132 | widening the u32 amount to U256 keeps its value, which stays below 2^32 |
| `ComplianceHost.BeforeTrade` | apps/src/main.rs:128-135 | the call's user and product id are the ones its journal decodes to, its amount is the CLI number and its seal is the prover's seal |
| `ComplianceHost.HostJournalAgreesWithGuest` | apps/src/main.rs:122-124 | the host's journal equals byte for byte what the guest commits on the host's stdin |
| `ComplianceHost.CallJournalIsCommittedJournal` | apps/src/main.rs:97-133 | the compliance guest run on the request's stdin commits exactly the journal passed to `beforeTrade` |
| `ComplianceHost.RequestStdinIgnoresProgramSource` | apps/src/main.rs:101-112 | the stdin is the same 128 bytes in the program-URL and the embedded-ELF branch |
| `ComplianceHost.JournalIgnoresAmount` | apps/src/main.rs:122-132 | changing the trade amount changes neither the journal nor the stdin |

## Left out

- ComplianceAbi.DecodeInput: states only the failure on short input and the round trip on encoded values. What alloy's `abi_decode` does with non-zero address padding, bool words other than 0 or 1, or trailing bytes is library behaviour not in the source. The decoder body reads such bytes leniently (low 20 bytes, "word is not zero", trailing bytes ignored), and no lemma relies on that reading.
- ComplianceAbi.DecodeOutput: same as `DecodeInput`, for the three-word journal.
- ComplianceGuest.Guest: which non-canonical inputs the guest accepts follows the decoder above and is not claimed.
- Reading stdin (`read_to_end`) and `commit_slice` in the guest: zkVM I/O; the guest is a function of its stdin bytes.
- Proof generation, the seal and its verification: opaque cryptography inside the prover and the on-chain verifier.
- The `beforeTrade` logic of `IComplianceHook.sol`: that file is not part of this model; only the argument values of the call are modelled.
- CLI parsing, `.env` loading, tracing, client construction, the error path of `with_program_url`, request submission, fulfilment polling, transaction broadcast and its timeout (apps/src/main.rs:39-95, 105, 114-120, 136-151): asynchronous network I/O and client-library errors.
- That the program behind a user-supplied program URL is the compliance guest: the model runs the compliance guest on the request's stdin in both branches.
- The CLI's RPC URL, private key, contract address, off-chain flag, storage and deployment settings: they only configure that I/O and reach none of the modelled values.
