/**
 * The wallet-verification hook: `mutate` checks that a wallet is connected
 * and can sign, requests a nonce for the public key, has the wallet sign the
 * UTF-8 bytes of the nonce's message, and submits the signature with the
 * nonce's timestamp for confirmation. The two requests and the signing
 * capability are inputs; the model records which of them were called, with
 * what, in what order, and how the run ended. The hook's flags are derived
 * from the two request states.
 */
module VerifyWallet {
  import opened Options
  import opened JsBuiltins

  datatype RpcError = RpcError(message: string)

  /** The challenge the nonce request returns. */
  datatype Nonce = Nonce(message: string, timestamp: int)

  datatype NonceReply = NonceIssued(nonce: Nonce) | NonceRejected(error: RpcError)

  /** What the wallet's `signMessage` does: resolve with signature bytes, or throw (any reason, user cancellation included). */
  datatype SignReply = Signed(signature: seq<Byte>) | SignThrew

  /** The confirmation payload: the signature goes as an ordered list of byte values. */
  datatype ConfirmRequest = ConfirmRequest(publicKey: string, signature: seq<int>, timestamp: int)

  datatype ConfirmReply = ConfirmAccepted(success: bool) | ConfirmRejected(error: RpcError)

  /** The hook's parameters; the two callbacks are recorded only as present or absent. */
  datatype Params = Params(
    publicKey: Option<string>,
    connected: bool,
    signMessage: Option<seq<Byte> -> SignReply>,
    hasOnSuccess: bool,
    hasOnError: bool)

  /** One observable call made by a run. */
  datatype Call =
    | RequestNonce(publicKey: string)
    | SignMessage(message: seq<Byte>)
    | RequestConfirm(request: ConfirmRequest)
    | SuccessCallback
    | ErrorCallback(error: RpcError)

  datatype VerifyError =
    | NotConnected
    | SigningUnsupported
    | SigningFailed
    | NonceFailed(error: RpcError)
    | ConfirmFailed(error: RpcError)

  /** The message of the error `mutate` rejects with. */
  function ErrorMessage(e: VerifyError): string {
    match e
    case NotConnected => "Please connect your wallet first"
    case SigningUnsupported => "Your wallet does not support message signing. Please use a compatible wallet."
    case SigningFailed => "Message signing was cancelled or failed"
    case NonceFailed(err) => err.message
    case ConfirmFailed(err) => err.message
  }

  datatype Outcome = Resolved | Rejected(error: VerifyError)

  /** The observable state of one request: in flight, its last error, whether it last succeeded. */
  datatype MutationState = MutationState(isPending: bool, error: Option<RpcError>, isSuccess: bool)

  const Idle: MutationState := MutationState(false, None, false)

  /** The state a request settles in once its reply arrives. */
  function Settled(failure: Option<RpcError>): (s: MutationState)
    ensures !s.isPending && s.error == failure && (s.isSuccess <==> failure.None?)
  {
    MutationState(false, failure, failure.None?)
  }

  /** The states of the nonce request and of the confirmation request. */
  datatype HookState = HookState(nonce: MutationState, confirm: MutationState)

  // --------------------------------------------------------------- flags

  /** `getNonce.isPending || confirmWallet.isPending`. */
  function IsLoading(s: HookState): bool {
    s.nonce.isPending || s.confirm.isPending
  }

  /** `getNonce.error || confirmWallet.error`: the nonce request's error first. */
  function Error(s: HookState): (r: Option<RpcError>)
    ensures r.Some? <==> s.nonce.error.Some? || s.confirm.error.Some?
    ensures s.nonce.error.Some? ==> r == s.nonce.error
    ensures s.nonce.error.None? ==> r == s.confirm.error
  {
    if s.nonce.error.Some? then s.nonce.error else s.confirm.error
  }

  /** `confirmWallet.isSuccess`. */
  function IsSuccess(s: HookState): bool {
    s.confirm.isSuccess
  }

  /**
   * Once both requests have settled the hook is not loading; it reports an
   * error exactly when a request failed, the nonce request's failure taking
   * precedence; and it reports success exactly when the confirmation succeeded.
   */
  lemma SettledFlags(nonceFailure: Option<RpcError>, confirmFailure: Option<RpcError>)
    ensures var s := HookState(Settled(nonceFailure), Settled(confirmFailure));
      && !IsLoading(s)
      && (Error(s) == None <==> nonceFailure.None? && confirmFailure.None?)
      && (nonceFailure.Some? ==> Error(s) == nonceFailure)
      && (nonceFailure.None? ==> Error(s) == confirmFailure)
      && (IsSuccess(s) <==> confirmFailure.None?)
  {
  }

  // ---------------------------------------------------------------- flow

  /** `!publicKey` is false: a key is present and is not the empty string. */
  predicate HasPublicKey(publicKey: Option<string>) {
    publicKey.Some? && publicKey.value != ""
  }

  /** A run of `mutate`: the calls it made, how it ended, and the request states it left. */
  datatype Run = Run(calls: seq<Call>, outcome: Outcome, after: HookState)

  /** What one `mutate` does, given the replies of the two requests and the wallet. */
  function Flow(
    p: Params,
    getNonce: string -> NonceReply,
    confirmWallet: ConfirmRequest -> ConfirmReply,
    before: HookState): (r: Run)
    ensures |r.calls| <= 4
    ensures r.outcome.Resolved? ==> |r.calls| >= 3 && r.after.confirm.isSuccess
  {
    if !p.connected || !HasPublicKey(p.publicKey) then
      Run([], Rejected(NotConnected), before)
    else if p.signMessage.None? then
      Run([], Rejected(SigningUnsupported), before)
    else
      var publicKey := p.publicKey.value;
      match getNonce(publicKey)
      case NonceRejected(e) =>
        Run([RequestNonce(publicKey)], Rejected(NonceFailed(e)), before.(nonce := Settled(Some(e))))
      case NonceIssued(nonce) =>
        var message := TextEncode(nonce.message);
        var signing := [RequestNonce(publicKey), SignMessage(message)];
        var afterNonce := before.(nonce := Settled(None));
        match p.signMessage.value(message)
        case SignThrew =>
          Run(signing, Rejected(SigningFailed), afterNonce)
        case Signed(signature) =>
          var request := ConfirmRequest(publicKey, signature, nonce.timestamp);
          var confirming := signing + [RequestConfirm(request)];
          match confirmWallet(request)
          case ConfirmRejected(e) =>
            Run(confirming + (if p.hasOnError then [ErrorCallback(e)] else []),
                Rejected(ConfirmFailed(e)),
                afterNonce.(confirm := Settled(Some(e))))
          case ConfirmAccepted(_) =>
            Run(confirming + (if p.hasOnSuccess then [SuccessCallback] else []),
                Resolved,
                afterNonce.(confirm := Settled(None)))
  }

  /** A run passed both checks and got a nonce from the request. */
  predicate NonceObtained(p: Params, getNonce: string -> NonceReply) {
    p.connected && HasPublicKey(p.publicKey) && p.signMessage.Some? && getNonce(p.publicKey.value).NonceIssued?
  }

  /** The bytes handed to the wallet for a run that obtained a nonce. */
  function SignedMessage(p: Params, getNonce: string -> NonceReply): seq<Byte>
    requires NonceObtained(p, getNonce)
  {
    TextEncode(getNonce(p.publicKey.value).nonce.message)
  }

  // ------------------------------------------------------------- lemmas

  /** Without a connected wallet and a non-empty key the run fails at once, whether or not the wallet can sign, and calls nothing. */
  lemma NotConnectedCallsNothing(p: Params, getNonce: string -> NonceReply, confirmWallet: ConfirmRequest -> ConfirmReply, before: HookState)
    requires !p.connected || !HasPublicKey(p.publicKey)
    ensures Flow(p, getNonce, confirmWallet, before) == Run([], Rejected(NotConnected), before)
  {
  }

  /** A connected wallet that cannot sign fails with its own error, again before any call. */
  lemma UnsupportedSigningCallsNothing(p: Params, getNonce: string -> NonceReply, confirmWallet: ConfirmRequest -> ConfirmReply, before: HookState)
    requires p.connected && HasPublicKey(p.publicKey) && p.signMessage.None?
    ensures Flow(p, getNonce, confirmWallet, before) == Run([], Rejected(SigningUnsupported), before)
  {
  }

  /** A failed nonce request is the run's error; nothing is signed or confirmed and no callback runs. */
  lemma NonceFailureStopsTheRun(p: Params, getNonce: string -> NonceReply, confirmWallet: ConfirmRequest -> ConfirmReply, before: HookState)
    requires p.connected && HasPublicKey(p.publicKey) && p.signMessage.Some?
    requires getNonce(p.publicKey.value).NonceRejected?
    ensures var r := Flow(p, getNonce, confirmWallet, before);
      && r.calls == [RequestNonce(p.publicKey.value)]
      && r.outcome == Rejected(NonceFailed(getNonce(p.publicKey.value).error))
  {
  }

  /** Whatever makes signing throw, the run ends with the one signing error and never requests confirmation. */
  lemma SigningFailureStopsTheRun(p: Params, getNonce: string -> NonceReply, confirmWallet: ConfirmRequest -> ConfirmReply, before: HookState)
    requires NonceObtained(p, getNonce)
    requires p.signMessage.value(SignedMessage(p, getNonce)).SignThrew?
    ensures var r := Flow(p, getNonce, confirmWallet, before);
      && r.calls == [RequestNonce(p.publicKey.value), SignMessage(SignedMessage(p, getNonce))]
      && r.outcome == Rejected(SigningFailed)
      && ErrorMessage(r.outcome.error) == "Message signing was cancelled or failed"
      && forall c :: c in r.calls ==> !c.RequestConfirm?
  {
  }

  /**
   * Once signing succeeds: nonce, sign, confirm, once each and in that
   * order; the wallet signs the UTF-8 bytes of the nonce's message; the
   * confirmation carries the same key, the signature bytes in order and the
   * nonce's timestamp; then exactly the matching callback, if given.
   */
  lemma SignedRunCallsInOrder(p: Params, getNonce: string -> NonceReply, confirmWallet: ConfirmRequest -> ConfirmReply, before: HookState)
    requires NonceObtained(p, getNonce)
    requires p.signMessage.value(SignedMessage(p, getNonce)).Signed?
    ensures var publicKey := p.publicKey.value;
      var nonce := getNonce(publicKey).nonce;
      var signature := p.signMessage.value(SignedMessage(p, getNonce)).signature;
      var request := ConfirmRequest(publicKey, signature, nonce.timestamp);
      var r := Flow(p, getNonce, confirmWallet, before);
      && r.calls[..3] == [RequestNonce(publicKey), SignMessage(TextEncode(nonce.message)), RequestConfirm(request)]
      && r.calls[2].request.publicKey == publicKey
      && r.calls[2].request.timestamp == nonce.timestamp
      && |r.calls[2].request.signature| == |signature|
      && (forall i :: 0 <= i < |signature| ==> r.calls[2].request.signature[i] == signature[i])
      && (confirmWallet(request).ConfirmAccepted? ==>
            r.outcome == Resolved && r.calls[3..] == (if p.hasOnSuccess then [SuccessCallback] else []))
      && (confirmWallet(request).ConfirmRejected? ==>
            r.outcome == Rejected(ConfirmFailed(confirmWallet(request).error))
            && r.calls[3..] == (if p.hasOnError then [ErrorCallback(confirmWallet(request).error)] else []))
  {
  }

  /** The bytes the wallet is asked to sign decode back to exactly the nonce's message. */
  lemma SignedBytesAreTheNonceMessage(p: Params, getNonce: string -> NonceReply, confirmWallet: ConfirmRequest -> ConfirmReply, before: HookState, m: seq<Byte>)
    requires SignMessage(m) in Flow(p, getNonce, confirmWallet, before).calls
    ensures NonceObtained(p, getNonce)
    ensures DecodeUtf8(m) == Some(getNonce(p.publicKey.value).nonce.message)
  {
    DecodeTextEncode(getNonce(p.publicKey.value).nonce.message);
  }

  /** The run resolves exactly when a confirmation request was made and accepted; the server's `success` flag is not looked at. */
  lemma ResolvesIffConfirmAccepted(p: Params, getNonce: string -> NonceReply, confirmWallet: ConfirmRequest -> ConfirmReply, before: HookState)
    ensures var r := Flow(p, getNonce, confirmWallet, before);
      r.outcome == Resolved <==>
        exists req :: RequestConfirm(req) in r.calls && confirmWallet(req).ConfirmAccepted?
  {
    var r := Flow(p, getNonce, confirmWallet, before);
    if r.outcome == Resolved {
      var req := r.calls[2].request;
      assert RequestConfirm(req) in r.calls;
    }
  }

  /**
   * The flags after a run: success and no error after a resolved run; the
   * request's error after a failed request; and after a failed check or a
   * failed signing the hook's `error` shows no new error, since those are
   * only thrown to the caller.
   */
  lemma FlagsAfterRun(p: Params, getNonce: string -> NonceReply, confirmWallet: ConfirmRequest -> ConfirmReply, before: HookState)
    ensures var r := Flow(p, getNonce, confirmWallet, before);
      && (r.outcome == Resolved ==> IsSuccess(r.after) && Error(r.after) == None)
      && (r.outcome.Rejected? && r.outcome.error.NonceFailed? ==> Error(r.after) == Some(r.outcome.error.error))
      && (r.outcome.Rejected? && r.outcome.error.ConfirmFailed? ==>
            Error(r.after) == Some(r.outcome.error.error) && !IsSuccess(r.after))
      && (r.outcome.Rejected? && (r.outcome.error == NotConnected || r.outcome.error == SigningUnsupported) ==>
            r.after == before)
      && (r.outcome == Rejected(SigningFailed) ==>
            Error(r.after) == before.confirm.error && r.after.confirm == before.confirm)
      && (!IsLoading(before) ==> !IsLoading(r.after))
  {
  }

  // ---------------------------------------------------------------- hook

  /** The hook with the state of its two requests. */
  class VerifyWalletHook {
    var nonce: MutationState
    var confirm: MutationState

    function State(): HookState
      reads this
    {
      HookState(nonce, confirm)
    }

    constructor ()
      ensures State() == HookState(Idle, Idle)
    {
      nonce := Idle;
      confirm := Idle;
    }

    /** `mutate`, its awaited calls taken as atomic, proved to do what Flow describes. */
    method Mutate(p: Params, getNonce: string -> NonceReply, confirmWallet: ConfirmRequest -> ConfirmReply)
      returns (calls: seq<Call>, outcome: Outcome)
      modifies this
      ensures Run(calls, outcome, State()) == Flow(p, getNonce, confirmWallet, old(State()))
    {
      calls := [];
      if !p.connected || !HasPublicKey(p.publicKey) {
        return calls, Rejected(NotConnected);
      }
      if p.signMessage.None? {
        return calls, Rejected(SigningUnsupported);
      }
      var publicKey := p.publicKey.value;

      // Step 1: the nonce.
      calls := calls + [RequestNonce(publicKey)];
      var nonceReply := getNonce(publicKey);
      if nonceReply.NonceRejected? {
        nonce := Settled(Some(nonceReply.error));
        return calls, Rejected(NonceFailed(nonceReply.error));
      }
      nonce := Settled(None);

      // Step 2: the signature; any throw becomes the one signing error.
      var message := TextEncode(nonceReply.nonce.message);
      calls := calls + [SignMessage(message)];
      var signReply := p.signMessage.value(message);
      if signReply.SignThrew? {
        return calls, Rejected(SigningFailed);
      }

      // Step 3: the confirmation.
      var request := ConfirmRequest(publicKey, signReply.signature, nonceReply.nonce.timestamp);
      calls := calls + [RequestConfirm(request)];
      var confirmReply := confirmWallet(request);
      match confirmReply
      case ConfirmRejected(e) =>
        confirm := Settled(Some(e));
        if p.hasOnError {
          calls := calls + [ErrorCallback(e)];
        }
        outcome := Rejected(ConfirmFailed(e));
      case ConfirmAccepted(_) =>
        confirm := Settled(None);
        if p.hasOnSuccess {
          calls := calls + [SuccessCallback];
        }
        outcome := Resolved;
    }
  }
}
