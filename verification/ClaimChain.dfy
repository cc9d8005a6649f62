/**
 * The chain side of the claim flow: building the unsigned `claim_winnings` transaction and
 * checking that a wallet-signed envelope is that transaction. XDR parsing is abstracted to
 * datatypes and SHA-256 to a function of everything a signature covers.
 */
module ClaimChain {
  import opened Wrappers

  const CLAIM_FUNCTION := "claim_winnings"
  const CLAIM_TTL_SECONDS: nat := 300

  datatype ScVal =
    | ScAddress(address: string)
    | ScSymbol(symbol: string)
    | ScU64(n: nat)
    | ScOther
    | ScUndecodable

  datatype HostFunction =
    | InvokeContract(contractId: string, name: string, args: seq<ScVal>)
    | OtherHostFunction

  datatype Operation =
    | InvokeHostFunction(source: Option<string>, func: HostFunction)
    | OtherOperation

  /** The part of a transaction that is hashed and signed. */
  datatype TxBody = TxBody(
    source: string, sequence: nat, fee: nat, resources: string, maxTime: nat, operations: seq<Operation>)

  datatype Tx = Tx(body: TxBody, signatures: seq<string>)

  /** What `TransactionBuilder.fromXDR` makes of a submitted string. */
  datatype Envelope = Malformed | Plain(tx: Tx) | FeeBump(feeSource: string, inner: Tx)

  /** One deployment: the claim contract and the network's transaction hash. */
  datatype Chain = Chain(contractId: string, hash: TxBody -> string)

  datatype Expected = Expected(user: string, market: string, nonce: nat, txHash: string)

  /** The reason carried by a `claim_xdr_mismatch` error. */
  datatype Mismatch =
    | NotParsed | SourceAccount | NotSigned | OperationCount | OperationType | OperationSource
    | HostFunctionType | ContractId | FunctionName | ArgumentCount | ArgumentDecoding
    | UserArgument | MarketArgument | NonceArgument | TransactionHash

  function InnerTx(env: Envelope): (tx: Tx)
    requires !env.Malformed?
  {
    if env.FeeBump? then env.inner else env.tx
  }

  function ArgumentMismatch(args: seq<ScVal>, e: Expected): (m: Option<Mismatch>) {
    if |args| != 3 then Some(ArgumentCount)
    else if ScUndecodable in args then Some(ArgumentDecoding)
    else if args[0] != ScAddress(e.user) then Some(UserArgument)
    else if args[1] != ScSymbol(e.market) then Some(MarketArgument)
    else if args[2] != ScU64(e.nonce) then Some(NonceArgument)
    else None
  }

  function OperationMismatch(chain: Chain, op: Operation, e: Expected): (m: Option<Mismatch>) {
    if op.OtherOperation? then Some(OperationType)
    else if op.source.Some? && op.source.value != e.user then Some(OperationSource)
    else if op.func.OtherHostFunction? then Some(HostFunctionType)
    else if op.func.contractId != chain.contractId then Some(ContractId)
    else if op.func.name != CLAIM_FUNCTION then Some(FunctionName)
    else ArgumentMismatch(op.func.args, e)
  }

  /** `verifySigned`: None when the envelope is accepted, otherwise why it is refused. */
  function VerifySigned(chain: Chain, env: Envelope, e: Expected): (m: Option<Mismatch>) {
    if env.Malformed? then Some(NotParsed)
    else
      var tx := InnerTx(env);
      if tx.body.source != e.user then Some(SourceAccount)
      else if |tx.signatures| == 0 then Some(NotSigned)
      else if |tx.body.operations| != 1 then Some(OperationCount)
      else
        var m := OperationMismatch(chain, tx.body.operations[0], e);
        if m.Some? then m
        else if chain.hash(tx.body) != e.txHash then Some(TransactionHash)
        else None
  }

  /** A successful simulation: the assembled fee and footprint. */
  datatype Simulation = Simulation(fee: nat, resources: string)

  /** The transaction `prepare` assembles at instant `now` (milliseconds). */
  function ClaimBody(chain: Chain, user: string, market: string, nonce: nat, sequence: nat, now: nat, sim: Simulation)
    : (body: TxBody)
  {
    TxBody(user, sequence, sim.fee, sim.resources, now / 1000 + CLAIM_TTL_SECONDS,
           [InvokeHostFunction(None,
              InvokeContract(chain.contractId, CLAIM_FUNCTION, [ScAddress(user), ScSymbol(market), ScU64(nonce)]))])
  }

  /** No other transaction has this one's hash. */
  ghost predicate NoSecondPreimage(chain: Chain, body: TxBody) {
    forall other :: chain.hash(other) == chain.hash(body) ==> other == body
  }

  /** An accepted envelope is signed and hashes to the hash stored at prepare time. */
  lemma VerifiedHash(chain: Chain, env: Envelope, e: Expected)
    ensures VerifySigned(chain, env, e).None? ==>
              && !env.Malformed?
              && InnerTx(env).signatures != []
              && chain.hash(InnerTx(env).body) == e.txHash
  {
  }

  /**
   * The hash is the authority: against the transaction that `prepare` built for the same user,
   * market and nonce, the field-by-field checks refuse nothing that the hash check would accept,
   * and an accepted envelope wraps exactly the prepared transaction.
   */
  lemma HashIsTheAuthority(chain: Chain, env: Envelope, e: Expected, sequence: nat, now: nat, sim: Simulation)
    requires NoSecondPreimage(chain, ClaimBody(chain, e.user, e.market, e.nonce, sequence, now, sim))
    requires e.txHash == chain.hash(ClaimBody(chain, e.user, e.market, e.nonce, sequence, now, sim))
    ensures VerifySigned(chain, env, e).None? <==>
              && !env.Malformed?
              && InnerTx(env).signatures != []
              && InnerTx(env).body == ClaimBody(chain, e.user, e.market, e.nonce, sequence, now, sim)
  {
    var body := ClaimBody(chain, e.user, e.market, e.nonce, sequence, now, sim);
    assert OperationMismatch(chain, body.operations[0], e).None?;
  }
}
